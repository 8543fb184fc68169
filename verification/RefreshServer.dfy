/**
 * The server-side twin: the plan rebuilt from the posted fields, the sent-claim overlay and the values written to
 * state, and their agreement with what the page showed.
 */
module RefreshServer {
  import opened Common
  import opened RefreshModel
  import opened RefreshRuns
  import opened RefreshProtocol
  import opened RefreshChain

  // ----- posting the form -----

  /** Repeated landAction fields arrive as nothing, one string or an array. */
  datatype Selection = NoneSelected | One(code: string) | Many(codes: seq<string>)

  /** `quantities` maps an action code to its landActionQuantity_<code> field. */
  datatype Payload = Payload(landAction: Selection, quantities: map<string, Text>)

  function SelectedCodes(payload: Payload): seq<string> {
    match payload.landAction
    case NoneSelected => []
    case One(code) => if code == "" then [] else [code]
    case Many(codes) => codes
  }

  /** Disabled controls are not posted. */
  predicate Posted(b: Box) {
    b.checked && !b.disabled
  }

  function PostedCodes(form: seq<Box>): seq<string> {
    if form == [] then []
    else PostedCodes(form[..|form| - 1]) + (if Posted(form[|form| - 1]) then [form[|form| - 1].code] else [])
  }

  function PostedField(b: Box): Option<Text> {
    if !b.isQuantity then Some(b.hidden) else if b.inputDisabled then None else Some(b.typed)
  }

  function PostedQuantities(form: seq<Box>): map<string, Text> {
    if form == [] then map[]
    else
      var before, b := PostedQuantities(form[..|form| - 1]), form[|form| - 1];
      if PostedField(b).Some? then before[b.code := PostedField(b).value] else before
  }

  function Post(form: seq<Box>): Payload {
    var codes := PostedCodes(form);
    var selection := if codes == [] then NoneSelected else if |codes| == 1 then One(codes[0]) else Many(codes);
    Payload(selection, PostedQuantities(form))
  }

  lemma {:induction false} PostSelectsChecked(form: seq<Box>, code: string)
    ensures code in PostedCodes(form) <==> exists i :: 0 <= i < |form| && form[i].code == code && Posted(form[i])
  {
    if form != [] {
      var init := form[..|form| - 1];
      PostSelectsChecked(init, code);
      assert forall i :: 0 <= i < |init| ==> init[i] == form[i];
    }
  }

  lemma {:induction false} PostCarriesField(form: seq<Box>, i: nat)
    requires UniqueCodes(form) && i < |form|
    ensures PostedField(form[i]).Some? <==> form[i].code in PostedQuantities(form)
    ensures PostedField(form[i]).Some? ==> PostedQuantities(form)[form[i].code] == PostedField(form[i]).value
  {
    var init := form[..|form| - 1];
    if i < |form| - 1 {
      PostCarriesField(init, i);
    } else {
      UnpostedField(init, form[i].code);
    }
  }

  lemma {:induction false} UnpostedField(form: seq<Box>, code: string)
    requires forall i :: 0 <= i < |form| ==> form[i].code != code
    ensures code !in PostedQuantities(form)
  {
    if form != [] {
      UnpostedField(form[..|form| - 1], code);
    }
  }

  // ----- rebuilding the plan -----

  datatype ServerAction = ServerAction(code: string, needsQuantity: bool, area: Option<Area>)

  function PostedQuantity(payload: Payload, code: string): Option<real> {
    if code in payload.quantities then ToNumber(payload.quantities[code]) else None
  }

  predicate Rebuilt(payload: Payload, code: string) {
    code in SelectedCodes(payload) && PostedQuantity(payload, code).Some? && PostedQuantity(payload, code).value > 0.0
  }

  function PlanFromFields(payload: Payload, actions: seq<ServerAction>): seq<Planned> {
    if actions == [] then []
    else
      var action := actions[|actions| - 1];
      PlanFromFields(payload, actions[..|actions| - 1])
      + (if Rebuilt(payload, action.code)
         then [Planned(action.code, PostedQuantity(payload, action.code).value,
                       if action.area.Some? then action.area.value.unit else "")]
         else [])
  }

  ghost predicate Knows(actions: seq<ServerAction>, code: string) {
    exists n :: 0 <= n < |actions| && actions[n].code == code
  }

  lemma {:induction false} RebuiltPlanSends(payload: Payload, actions: seq<ServerAction>, code: string)
    ensures SentQuantity(PlanFromFields(payload, actions), code)
            == if Knows(actions, code) && Rebuilt(payload, code) then PostedQuantity(payload, code) else None
    ensures Rebuilt(payload, code) <==>
            code in SelectedCodes(payload) && exists q: real :: PostedQuantity(payload, code) == Some(q) && q > 0.0
  {
    if actions != [] {
      var init, action := actions[..|actions| - 1], actions[|actions| - 1];
      RebuiltPlanSends(payload, init, code);
      var plan := PlanFromFields(payload, actions);
      assert Knows(actions, code) <==> Knows(init, code) || action.code == code;
      hide Rebuilt, PostedQuantity, Knows;
      if Rebuilt(payload, action.code) {
        assert plan[..|plan| - 1] == PlanFromFields(payload, init);
      } else {
        assert plan == PlanFromFields(payload, init);
      }
    }
  }

  /** The entries of the rebuilt plan are those of the selected known actions with a positive quantity, each in the unit
      of its action. */
  lemma {:induction false} RebuiltEntries(payload: Payload, actions: seq<ServerAction>, p: Planned)
    ensures p in PlanFromFields(payload, actions) <==>
            exists n :: 0 <= n < |actions| && p.code == actions[n].code && Rebuilt(payload, p.code)
                        && Some(p.quantity) == PostedQuantity(payload, p.code)
                        && p.unit == (if actions[n].area.Some? then actions[n].area.value.unit else "")
  {
    hide Rebuilt, PostedQuantity;
    if actions != [] {
      var init := actions[..|actions| - 1];
      RebuiltEntries(payload, init, p);
      RebuiltHasQuantity(payload, actions[|actions| - 1].code);
      assert forall n :: 0 <= n < |init| ==> init[n] == actions[n];
    }
  }

  lemma RebuiltHasQuantity(payload: Payload, code: string)
    ensures Rebuilt(payload, code) ==> PostedQuantity(payload, code).Some?
  {
  }

  // ----- a settled form -----

  /** What a checkbox holds is what its own field posts. */
  predicate Settled(b: Box) {
    && Released(b)
    && (b.checked ==> PostedField(b).Some? && ToNumber(PostedField(b).value) == Some(Held(b)) && Held(b) > 0.0)
  }

  lemma ReportSettlesBox(b: Box, actions: seq<Report>, allowGrowth: bool)
    requires BoxInv(b) && SoundBox(b) && !Unconfirmed(b) && SoundResponse(actions) && Covers(b, actions)
    ensures Settled(ApplyTo(b, actions, allowGrowth)) || !ApplyTo(b, actions, allowGrowth).checked
    ensures BoxInv(ApplyTo(b, actions, allowGrowth)) && Released(ApplyTo(b, actions, allowGrowth))
  {
    hide ApplyReport, BoxInv, SoundBox, Claim, Unconfirmed, Settled, Released;
    FoundReportIsListed(actions, b.code);
    var report := FindReport(actions, b.code).value;
    var sent := if Entry(b).Some? then Claim(b) else None;
    SentIsValid(b);
    ReportKeepsBox(b, report, sent, allowGrowth);
    ReportReleasesBox(b, report, sent, allowGrowth);
    if b.checked {
      CheckedBoxSettles(b, report, allowGrowth);
    }
    CheckedOnlyBefore(b, report, sent, allowGrowth);
  }

  lemma SentIsValid(b: Box)
    requires BoxInv(b)
    ensures b.isQuantity && Entry(b).Some? ==> Claim(b).Some? && ValidQuantity(b.total, Claim(b).value)
  {
  }

  lemma CheckedOnlyBefore(b: Box, report: Report, sent: Option<real>, allowGrowth: bool)
    ensures ApplyReport(b, report, sent, allowGrowth).checked ==> b.checked
  {
    hide ValidTyped, MarkUnavailable, ClearUnavailable;
    MarksNeverCheck();
  }

  lemma MarksNeverCheck()
    ensures forall b :: !MarkUnavailable(b).checked
    ensures forall b :: ClearUnavailable(b).checked == b.checked
  {
  }

  lemma CheckedBoxSettles(b: Box, report: Report, allowGrowth: bool)
    requires BoxInv(b) && SoundBox(b) && !Unconfirmed(b) && SoundReport(report) && b.checked && report.area.Some?
    ensures Entry(b).Some?
    ensures var b' := ApplyReport(b, report, Claim(b), allowGrowth); Settled(b') || !b'.checked
  {
  }

  /** A chain that settles on a covering response leaves every checked action posting exactly its claim. */
  lemma CoveringResponseSettles(w: World, actions: seq<Report>)
    requires ChainReady(w) && SoundResponse(actions) && !Live(Respond(w, w.requestId, Some(actions)))
    requires forall i :: 0 <= i < |w.form| ==> Covers(w.form[i], actions)
    ensures var form := Respond(w, w.requestId, Some(actions)).form;
            UniqueCodes(form) && forall i :: 0 <= i < |form| ==> BoxInv(form[i]) && Settled(form[i])
  {
    hide ApplyResponse, Plan, Settled;
    var form := SettledForm(w, w.sent[w.requestId - 1], actions);
    SettlesAtFixpoint(w, actions);
    SettledFormIsSound(w, actions);
    forall i | 0 <= i < |form| ensures BoxInv(form[i]) && Settled(form[i]) {
      SettledBox(w, actions, i);
      ReportSettlesBox(w.form[i], actions, !OfferedBefore(w.form, actions, i));
      UncheckedIsSettled(form[i]);
    }
  }

  lemma UncheckedIsSettled(b: Box)
    ensures !b.checked && Released(b) ==> Settled(b)
  {
  }

  // ----- agreement -----

  ghost predicate SettledPage(form: seq<Box>) {
    UniqueCodes(form) && forall i :: 0 <= i < |form| ==> BoxInv(form[i]) && Settled(form[i])
  }

  /** The server was asked to render every action of the form, with the same input kinds, and codes are not empty. */
  ghost predicate Renders(actions: seq<ServerAction>, form: seq<Box>) {
    && (forall i :: 0 <= i < |form| ==> Knows(actions, form[i].code) && form[i].code != "")
    && (forall i, n :: 0 <= i < |form| && 0 <= n < |actions| && actions[n].code == form[i].code ==>
          actions[n].needsQuantity == form[i].isQuantity)
  }

  lemma SelectedIsPosted(form: seq<Box>, code: string)
    requires code != ""
    ensures code in SelectedCodes(Post(form)) <==> code in PostedCodes(form)
  {
  }

  /** The server reads back, for each action of a settled form, exactly what the checkbox holds. */
  lemma PostRoundTrips(form: seq<Box>, i: nat)
    requires SettledPage(form) && i < |form| && form[i].code != ""
    ensures Rebuilt(Post(form), form[i].code) <==> form[i].checked
    ensures form[i].checked ==> PostedQuantity(Post(form), form[i].code) == Some(Held(form[i]))
  {
    var b := form[i];
    assert BoxInv(b) && Settled(b);
    SelectedIsPosted(form, b.code);
    PostSelectsChecked(form, b.code);
    PostCarriesField(form, i);
    if b.code in PostedCodes(form) {
      var j :| 0 <= j < |form| && form[j].code == b.code && Posted(form[j]);
      assert j == i;
    }
  }

  lemma SettledClaim(form: seq<Box>, i: nat)
    requires SettledPage(form) && i < |form|
    ensures form[i].checked <==> Held(form[i]) != 0.0
  {
    assert BoxInv(form[i]) && Settled(form[i]);
  }

  lemma UnclaimedCodeIsNotRebuilt(form: seq<Box>, code: string)
    requires forall i :: 0 <= i < |form| ==> form[i].code != code
    ensures !Rebuilt(Post(form), code)
  {
    UnpostedField(form, code);
  }

  // ----- agreement of any form -----

  /** What the server reads from one checkbox and its own field. */
  function PostedClaim(b: Box): real {
    if Posted(b) && PostedField(b).Some? && ToNumber(PostedField(b).value).Some?
       && ToNumber(PostedField(b).value).value > 0.0
    then ToNumber(PostedField(b).value).value else 0.0
  }

  lemma RebuiltClaim(form: seq<Box>, i: nat)
    requires UniqueCodes(form) && i < |form| && form[i].code != ""
    ensures Rebuilt(Post(form), form[i].code) <==> PostedClaim(form[i]) != 0.0
    ensures Rebuilt(Post(form), form[i].code) ==>
              PostedQuantity(Post(form), form[i].code) == Some(PostedClaim(form[i]))
  {
    var b := form[i];
    SelectedIsPosted(form, b.code);
    PostSelectsChecked(form, b.code);
    PostCarriesField(form, i);
    if b.code in PostedCodes(form) {
      var j :| 0 <= j < |form| && form[j].code == b.code && Posted(form[j]);
      assert j == i;
    }
  }

  lemma RebuiltClaims(form: seq<Box>, actions: seq<ServerAction>, i: nat)
    requires UniqueCodes(form) && Renders(actions, form) && i < |form|
    ensures var theirs := Claims(PlanFromFields(Post(form), actions));
            && (form[i].code in theirs <==> PostedClaim(form[i]) != 0.0)
            && (form[i].code in theirs ==> theirs[form[i].code] == PostedClaim(form[i]))
  {
    hide Claims, PlanFromFields, Post, Rebuilt, PostedQuantity, SentQuantity, PostedClaim, UniqueCodes;
    ClaimsAreSent(PlanFromFields(Post(form), actions), form[i].code);
    RebuiltPlanSends(Post(form), actions, form[i].code);
    RebuiltClaim(form, i);
    PostedClaimIsPositive(form[i]);
  }

  lemma PostedClaimIsPositive(b: Box)
    ensures PostedClaim(b) >= 0.0
  {
  }

  /** For any form: the rebuilt plan and the page's own plan claim the same exactly if each checkbox posts what it
      holds, so exactly if each checked action with a claim is enabled and its own field posts that claim. */
  lemma ServerPlanAgreesExactlyWhen(form: seq<Box>, actions: seq<ServerAction>)
    requires UniqueCodes(form) && Renders(actions, form)
    ensures Claims(PlanFromFields(Post(form), actions)) == Claims(Plan(form))
            <==> forall i :: 0 <= i < |form| ==> PostedClaim(form[i]) == Held(form[i])
  {
    hide Claims, Plan, PlanFromFields, Post, Held, PostedClaim;
    var theirs, ours := Claims(PlanFromFields(Post(form), actions)), Claims(Plan(form));
    if theirs == ours {
      forall i | 0 <= i < |form| ensures PostedClaim(form[i]) == Held(form[i]) {
        RebuiltClaims(form, actions, i);
        ClaimsAreHeld(form, i);
      }
    }
    if forall i :: 0 <= i < |form| ==> PostedClaim(form[i]) == Held(form[i]) {
      forall code
        ensures code in theirs <==> code in ours
        ensures code in theirs ==> theirs[code] == ours[code]
      {
        if i :| 0 <= i < |form| && form[i].code == code {
          RebuiltClaims(form, actions, i);
          ClaimsAreHeld(form, i);
        } else {
          UnknownToServer(form, actions, code);
          if code in ours {
            ClaimsAreOfForm(form, code);
          }
        }
      }
    }
  }

  lemma UnknownToServer(form: seq<Box>, actions: seq<ServerAction>, code: string)
    requires forall i :: 0 <= i < |form| ==> form[i].code != code
    ensures code !in Claims(PlanFromFields(Post(form), actions))
  {
    hide Claims, PlanFromFields, Post, Rebuilt, PostedQuantity, SentQuantity;
    UnclaimedCodeIsNotRebuilt(form, code);
    RebuiltPlanSends(Post(form), actions, code);
    ClaimsAreSent(PlanFromFields(Post(form), actions), code);
  }

  /** On a settled form every checkbox posts what it holds, so the two plans agree. */
  lemma ServerPlanAgrees(form: seq<Box>, actions: seq<ServerAction>)
    requires SettledPage(form) && Renders(actions, form)
    ensures Claims(PlanFromFields(Post(form), actions)) == Claims(Plan(form))
  {
    hide Claims, Plan, PlanFromFields, Post;
    forall i | 0 <= i < |form| ensures PostedClaim(form[i]) == Held(form[i]) {
      assert BoxInv(form[i]) && Settled(form[i]);
    }
    ServerPlanAgreesExactlyWhen(form, actions);
  }

  /** One action is ticked beside another and the form is posted before the answer: the other one is disabled, so it is
      not posted although the page claims it. */
  lemma LivePostDropsOthers(w: World, actions: seq<ServerAction>)
    requires w == OpenChain(World(PAIR, 0, [], {}, None), Some(1)) && Renders(actions, w.form)
    ensures Live(w) && Held(w.form[0]) == 1.0 && !Rebuilt(Post(w.form), "A")
    ensures Claims(PlanFromFields(Post(w.form), actions)) != Claims(Plan(w.form))
  {
    hide Claims, Plan, PlanFromFields, Post;
    var form := DisableOthers(PAIR, 1);
    assert ConfirmAll(PAIR) == PAIR && w.form == form;
    assert form[0].code == "A" && PostedClaim(form[0]) == 0.0;
    RebuiltClaim(form, 0);
    ServerPlanAgreesExactlyWhen(form, actions);
  }

  /** End of a chain: what the server rebuilds after the post is what the page last claimed, even if stale responses
      keep arriving in between. */
  lemma SettledChainAgrees(w: World, reports: seq<Report>, actions: seq<ServerAction>)
    requires ChainReady(w) && SoundResponse(reports) && !Live(Respond(w, w.requestId, Some(reports)))
    requires forall i :: 0 <= i < |w.form| ==> Covers(w.form[i], reports)
    requires Renders(actions, Respond(w, w.requestId, Some(reports)).form)
    ensures var w' := Respond(w, w.requestId, Some(reports));
            && Claims(PlanFromFields(Post(w'.form), actions)) == Claims(Plan(w'.form))
            && forall id, late :: Awaiting(w', id) ==> Respond(w', id, late).form == w'.form
  {
    CoveringResponseSettles(w, reports);
    ServerPlanAgrees(Respond(w, w.requestId, Some(reports)).form, actions);
  }

  // ----- the sent-claim overlay -----

  /** The last action with a code, as in a JavaScript Map; an unknown code needs no quantity. */
  function NeedsQuantity(actions: seq<ServerAction>, code: string): bool {
    if actions == [] then false
    else if actions[|actions| - 1].code == code then actions[|actions| - 1].needsQuantity
    else NeedsQuantity(actions[..|actions| - 1], code)
  }

  function OverlayOne(report: Report, plan: seq<Planned>, actions: seq<ServerAction>): Report {
    var sent := SentQuantity(plan, report.code);
    if sent.Some? && !NeedsQuantity(actions, report.code)
    then report.(area := Some(Area(sent.value, if report.area.Some? then report.area.value.unit else "")))
    else report
  }

  function Overlay(recomputed: seq<Report>, plan: seq<Planned>, actions: seq<ServerAction>): (r: seq<Report>)
    ensures |r| == |recomputed|
    ensures forall n :: 0 <= n < |r| ==> r[n].code == recomputed[n].code
  {
    seq(|recomputed|, n requires 0 <= n < |recomputed| => OverlayOne(recomputed[n], plan, actions))
  }

  /** The last recomputed report on a code. */
  function LastReport(reports: seq<Report>, code: string): Option<Report> {
    if reports == [] then None
    else if reports[|reports| - 1].code == code then Some(reports[|reports| - 1])
    else LastReport(reports[..|reports| - 1], code)
  }

  function Merge(actions: seq<ServerAction>, recomputed: seq<Report>): (r: seq<ServerAction>)
    ensures |r| == |actions|
  {
    seq(|actions|, n requires 0 <= n < |actions| =>
      var latest := LastReport(recomputed, actions[n].code);
      if latest.Some? then actions[n].(area := latest.value.area) else actions[n])
  }

  /** `answer` is what the recomputing service returns for a plan, None when it fails. */
  function Recompute(payload: Payload, actions: seq<ServerAction>, answer: Option<seq<Report>>): seq<ServerAction> {
    var plan := PlanFromFields(payload, actions);
    if plan == [] || answer.None? then actions else Merge(actions, Overlay(answer.value, plan, actions))
  }

  function FindAction(actions: seq<ServerAction>, code: string): Option<ServerAction> {
    if actions == [] then None
    else if actions[0].code == code then Some(actions[0])
    else FindAction(actions[1..], code)
  }

  datatype StateEntry = NotStored | Stored(value: Option<real>)

  /** What submitting stores for a selected code; None is NaN. */
  function StoredValue(payload: Payload, actions: seq<ServerAction>, code: string): StateEntry {
    var action := FindAction(actions, code);
    if code !in SelectedCodes(payload) || action.None? then NotStored
    else if !action.value.needsQuantity
    then Stored(Some(if action.value.area.Some? then action.value.area.value.value else 0.0))
    else if code !in payload.quantities || payload.quantities[code] == Blank
            || PostedQuantity(payload, code) == Some(0.0)
    then NotStored
    else Stored(PostedQuantity(payload, code))
  }

  lemma {:induction false} OverlaidReport(
    recomputed: seq<Report>, plan: seq<Planned>, actions: seq<ServerAction>, code: string)
    ensures LastReport(Overlay(recomputed, plan, actions), code)
            == (var report := LastReport(recomputed, code);
                if report.None? then None else Some(OverlayOne(report.value, plan, actions)))
  {
    if recomputed != [] {
      var init := recomputed[..|recomputed| - 1];
      OverlaidReport(init, plan, actions, code);
      assert Overlay(recomputed, plan, actions)[..|recomputed| - 1] == Overlay(init, plan, actions);
    }
  }

  lemma {:induction false} LastReportHasCode(reports: seq<Report>, code: string)
    ensures LastReport(reports, code).Some? ==> LastReport(reports, code).value.code == code
  {
    if reports != [] {
      LastReportHasCode(reports[..|reports| - 1], code);
    }
  }

  /** After the overlay a recomputed non-quantity action that was sent has its posted claim as its area; every other
      action keeps the recomputed headroom. */
  lemma OverlayKeepsClaims(recomputed: seq<Report>, payload: Payload, actions: seq<ServerAction>, code: string)
    requires LastReport(recomputed, code).Some?
    ensures LastReport(Overlay(recomputed, PlanFromFields(payload, actions), actions), code).Some?
    ensures var plan := PlanFromFields(payload, actions);
            var area := LastReport(Overlay(recomputed, plan, actions), code).value.area;
            if Knows(actions, code) && Rebuilt(payload, code) && !NeedsQuantity(actions, code)
            then && area.Some? && Some(area.value.value) == PostedQuantity(payload, code)
                 && var before := LastReport(recomputed, code).value.area;
                    before.Some? ==> area.value.unit == before.value.unit
            else area == LastReport(recomputed, code).value.area
  {
    var plan := PlanFromFields(payload, actions);
    OverlaidReport(recomputed, plan, actions, code);
    LastReportHasCode(recomputed, code);
    RebuiltPlanSends(payload, actions, code);
  }

  lemma {:induction false} FoundAction(actions: seq<ServerAction>, code: string)
    ensures FindAction(actions, code).Some? <==> Knows(actions, code)
    ensures FindAction(actions, code).Some? ==>
              FindAction(actions, code).value in actions && FindAction(actions, code).value.code == code
  {
    if actions != [] {
      FoundAction(actions[1..], code);
      if actions[0].code != code && Knows(actions, code) {
        var n :| 0 <= n < |actions| && actions[n].code == code;
        assert actions[1..][n - 1].code == code;
      }
    }
  }

  lemma {:induction false} FoundInMerge(actions: seq<ServerAction>, recomputed: seq<Report>, code: string)
    ensures FindAction(Merge(actions, recomputed), code)
            == (var action := FindAction(actions, code);
                if action.None? then None
                else Some(var latest := LastReport(recomputed, code);
                          if latest.Some? then action.value.(area := latest.value.area) else action.value))
  {
    if actions != [] {
      FoundInMerge(actions[1..], recomputed, code);
      assert Merge(actions, recomputed)[1..] == Merge(actions[1..], recomputed);
    }
  }

  lemma {:induction false} KindOfKnown(actions: seq<ServerAction>, form: seq<Box>, i: nat)
    requires i < |form| && Knows(actions, form[i].code)
    requires forall n :: 0 <= n < |actions| && actions[n].code == form[i].code ==>
               actions[n].needsQuantity == form[i].isQuantity
    ensures NeedsQuantity(actions, form[i].code) == form[i].isQuantity
  {
    var init := actions[..|actions| - 1];
    if actions[|actions| - 1].code != form[i].code {
      var n :| 0 <= n < |actions| && actions[n].code == form[i].code;
      assert init[n].code == form[i].code;
      KindOfKnown(init, form, i);
    }
  }

  /** The recomputing service answered, and reported on this action. */
  predicate Recomputed(answer: Option<seq<Report>>, code: string) {
    answer.Some? && LastReport(answer.value, code).Some?
  }

  function RenderedArea(actions: seq<ServerAction>, code: string): Option<real> {
    var action := FindAction(actions, code);
    if action.Some? && action.value.area.Some? then Some(action.value.area.value.value) else None
  }

  /** What submitting stores for each action of a settled form: the posted claim, but for a checked non-quantity action
      that was not recomputed the area it was rendered with. */
  lemma StoredForSettled(form: seq<Box>, actions: seq<ServerAction>, answer: Option<seq<Report>>, i: nat)
    requires SettledPage(form) && Renders(actions, form) && i < |form|
    ensures var b := form[i];
            StoredValue(Post(form), Recompute(Post(form), actions, answer), b.code)
            == if !b.checked then NotStored
               else if b.isQuantity || Recomputed(answer, b.code) then Stored(Some(Held(b)))
               else Stored(Some(RenderedArea(actions, b.code).Or(Some(0.0)).value))
  {
    hide Held, Overlay, Merge, Post, PlanFromFields;
    var payload, code := Post(form), form[i].code;
    var plan := PlanFromFields(payload, actions);
    PostRoundTrips(form, i);
    FoundAction(actions, code);
    assert Knows(actions, code);
    SelectedIsPosted(form, code);
    PostSelectsChecked(form, code);
    assert BoxInv(form[i]) && Settled(form[i]);
    if form[i].checked {
      RebuiltPlanSends(payload, actions, code);
      assert plan != [];
      KindOfKnown(actions, form, i);
      if answer.Some? {
        FoundInMerge(actions, Overlay(answer.value, plan, actions), code);
        OverlaidReport(answer.value, plan, actions, code);
        if LastReport(answer.value, code).Some? {
          OverlayKeepsClaims(answer.value, payload, actions, code);
        }
      }
    }
  }

  /** The code is among those posted; a single empty one counts as none. */
  predicate IsSelected(selection: Selection, code: string) {
    match selection
    case NoneSelected => false
    case One(only) => code == only && only != ""
    case Many(codes) => code in codes
  }

  /** Whatever was posted, a selected known action is stored exactly if it needs no quantity or its field was posted
      with something other than blank and zero; an action that was not selected or is not known never is. */
  lemma StoredExactlyWhen(payload: Payload, actions: seq<ServerAction>, code: string)
    ensures StoredValue(payload, actions, code).Stored? <==>
            && IsSelected(payload.landAction, code) && Knows(actions, code)
            && (FindAction(actions, code).Some? && FindAction(actions, code).value.needsQuantity ==>
                  && code in payload.quantities && payload.quantities[code] != Blank
                  && payload.quantities[code] != Amount(0.0))
  {
    FoundAction(actions, code);
  }

  lemma PlanIsRebuiltWhen(payload: Payload, actions: seq<ServerAction>)
    ensures PlanFromFields(payload, actions) != []
            <==> exists n :: 0 <= n < |actions| && Rebuilt(payload, actions[n].code)
  {
    hide Rebuilt, PostedQuantity;
    var plan := PlanFromFields(payload, actions);
    if plan != [] {
      RebuiltEntries(payload, actions, plan[0]);
      assert plan[0] in plan;
    }
    if n :| 0 <= n < |actions| && Rebuilt(payload, actions[n].code) {
      var action := actions[n];
      RebuiltHasQuantity(payload, action.code);
      var p := Planned(action.code, PostedQuantity(payload, action.code).value,
                       if action.area.Some? then action.area.value.unit else "");
      RebuiltEntries(payload, actions, p);
      assert p in plan;
    }
  }

  /** The areas used for storing, whatever was posted: recomputed ones if something was claimed and the service
      answered, with a non-quantity action's own posted claim in place of its headroom, and the rendered ones
      otherwise. */
  lemma RecomputedAreas(payload: Payload, actions: seq<ServerAction>, answer: Option<seq<Report>>, code: string)
    requires Knows(actions, code)
    ensures FindAction(actions, code).Some? && FindAction(Recompute(payload, actions, answer), code).Some?
    ensures var before := FindAction(actions, code).value;
            var after := FindAction(Recompute(payload, actions, answer), code).value;
            && after.code == code && after.needsQuantity == before.needsQuantity
            && if Recomputed(answer, code) && exists n :: 0 <= n < |actions| && Rebuilt(payload, actions[n].code)
               then
                 if Rebuilt(payload, code) && !NeedsQuantity(actions, code)
                 then after.area.Some? && Some(after.area.value.value) == PostedQuantity(payload, code)
                 else after.area == LastReport(answer.value, code).value.area
               else after.area == before.area
  {
    hide Rebuilt, PostedQuantity, Merge, Overlay, PlanFromFields, Knows;
    var plan := PlanFromFields(payload, actions);
    FoundAction(actions, code);
    PlanIsRebuiltWhen(payload, actions);
    if answer.Some? && plan != [] {
      FoundInMerge(actions, Overlay(answer.value, plan, actions), code);
      OverlaidReport(answer.value, plan, actions, code);
      if LastReport(answer.value, code).Some? {
        OverlayKeepsClaims(answer.value, payload, actions, code);
      }
    }
  }

  /** What is stored for an action of a settled form is what the page held for it, and nothing if it was unchecked,
      exactly when it is not a checked non-quantity action, or was recomputed, or happened to be rendered with the
      area it now holds. */
  lemma StoredIsHeld(form: seq<Box>, actions: seq<ServerAction>, answer: Option<seq<Report>>, i: nat)
    requires SettledPage(form) && Renders(actions, form) && i < |form|
    ensures StoredValue(Post(form), Recompute(Post(form), actions, answer), form[i].code)
            == (if form[i].checked then Stored(Some(Held(form[i]))) else NotStored)
            <==> (form[i].checked && !form[i].isQuantity ==>
                    Recomputed(answer, form[i].code) || RenderedArea(actions, form[i].code) == Some(Held(form[i])))
  {
    hide Held, Recompute, Post, StoredValue, Recomputed, RenderedArea;
    StoredForSettled(form, actions, answer, i);
    SettledClaim(form, i);
  }

  /** The service fails: an action holding one hectare of two is stored with two. */
  lemma FailedRecomputeStoresRenderedArea()
    ensures var form := [Ticked("A", 1.0)];
            var actions := [ServerAction("A", false, Some(Area(2.0, "ha")))];
            && SettledPage(form) && Renders(actions, form) && Held(form[0]) == 1.0
            && StoredValue(Post(form), Recompute(Post(form), actions, None), "A") == Stored(Some(2.0))
  {
    var form := [Ticked("A", 1.0)];
    var actions := [ServerAction("A", false, Some(Area(2.0, "ha")))];
    assert actions[0].code == "A";
    assert Settled(form[0]) && BoxInv(form[0]);
    StoredForSettled(form, actions, None, 0);
  }
}
