/** What becomes of an edit between the keystroke and the moment its debounce is consumed. */
module RefreshEdits {
  import opened Common
  import opened RefreshModel
  import opened RefreshRuns
  import opened RefreshProtocol
  import opened RefreshControls

  /** The event neither consumes nor replaces the pending edit of action `i`, nor flips its checkbox. */
  predicate LeavesPending(e: Event, i: nat) {
    !e.Edited? && !e.TimerFired? && !e.Blurred? && !(e.Toggled? && e.box == i)
  }

  // ----- one event -----

  /** Action `i` as the event leaves it, before the request the event may send confirms the form. */
  ghost function Applied(w: World, e: Event, i: nat): Box
    requires Enabled(w, e) && i < |w.form|
  {
    var b := w.form[i];
    match e
    case Toggled(n) => if n == i then ToggleBox(b) else b
    case Edited(n, text, changed) =>
      if n == i then b.(typed := text, errorOnLoad := b.errorOnLoad && !changed) else b
    case TimerFired => b
    case Blurred => b
    case Responded(id, response) =>
      if id != w.requestId then b
      else if response.None? then RecoverBox(b)
      else ApplyOne(w.form, response.value, w.sent[id - 1].plan, i)
  }

  /** What the newest request claims for a code. */
  function NewestClaim(w: World, code: string): Option<real> {
    if w.sent == [] then None else SentQuantity(w.sent[|w.sent| - 1].plan, code)
  }

  /** The effect on action `i`: what was applied, confirmed if a request went out; the triggering action is not disabled
      by its request, nor is any by a request without one. */
  ghost predicate Outcome(w: World, e: Event, i: nat, w': World)
    requires Enabled(w, e) && i < |w.form|
  {
    var b := Applied(w, e, i);
    && i < |w'.form| && |w.sent| <= |w'.sent| <= |w.sent| + 1
    && if |w'.sent| == |w.sent| then w'.sent == w.sent && w'.form[i] == b
       else
         var trigger := w'.sent[|w.sent|].trigger;
         && HoldsAs(Confirm(b), w'.form[i])
         && (trigger.None? || trigger == Some(i) ==> w'.form[i] == Confirm(b))
         && NewestClaim(w', b.code) == (if Entry(Confirm(b)).Some? then Claim(Confirm(b)) else None)
  }

  lemma DisabledConfirms(a: Box, b: Box)
    requires HoldsAs(a, b)
    ensures HoldsAs(Confirm(a), Confirm(b)) && a.code == b.code
    ensures Entry(Confirm(a)) == Entry(Confirm(b)) && Claim(Confirm(a)) == Claim(Confirm(b))
  {
  }

  lemma HoldingIsTransitive(a: Box, b: Box, c: Box)
    requires HoldsAs(a, b) && HoldsAs(b, c)
    ensures HoldsAs(a, c)
  {
  }

  lemma FollowUpHolds(w: World, request: Request, actions: seq<Report>, i: nat)
    requires i < |w.form|
    ensures |FollowUpForm(w, request, actions)| == |w.form|
    ensures HoldsAs(SettledForm(w, request, actions)[i], FollowUpForm(w, request, actions)[i])
    ensures request.trigger.None? || request.trigger == Some(i) ==>
              FollowUpForm(w, request, actions)[i] == SettledForm(w, request, actions)[i]
  {
    hide ApplyOne, HoldsAs, Disable;
    HoldsAsItself(SettledForm(w, request, actions)[i]);
    if request.trigger.Some? {
      DisablingKeepsFields(SettledForm(w, request, actions)[i], i == request.trigger.value);
    }
  }

  lemma ResponseOutcome(w: World, id: nat, response: Option<seq<Report>>, i: nat)
    requires Inv(w) && Awaiting(w, id) && i < |w.form|
    ensures Outcome(w, Responded(id, response), i, Respond(w, id, response))
    ensures Respond(w, id, response).pending == w.pending
  {
    hide StartRefresh, ApplyOne, Grew, RecoverBox, Confirm, Entry, Claim, HoldsAs, FollowUpForm, FormInv, RequestInv;
    hide SentQuantity;
    var e := Responded(id, response);
    if id == w.requestId && response.Some? && Continues(w, w.sent[id - 1], response.value) {
      var request := w.sent[id - 1];
      var form := FollowUpForm(w, request, response.value);
      var w1 := w.(answered := w.answered + {id}, form := form);
      ResponseFormsKeepInv(w, id, response.value);
      FollowUpHolds(w, request, response.value, i);
      DisabledConfirms(Applied(w, e, i), form[i]);
      RefreshedPlan(w1, request.trigger, request.followUpsLeft - 1, request.root, i);
      HoldingIsTransitive(Confirm(Applied(w, e, i)), Confirm(form[i]), Respond(w, id, response).form[i]);
    }
  }

  lemma FlushOutcome(w: World, e: Event, i: nat)
    requires Inv(w) && Enabled(w, e) && (e.TimerFired? || e.Blurred?) && i < |w.form|
    ensures Outcome(w, e, i, Flush(w))
  {
    hide StartRefresh, ValidTyped, Confirm, Entry, Claim, HoldsAs, RequestInv, SentQuantity;
    RefreshedPlan(w.(pending := None), w.pending, MAX_GROWTH_FOLLOW_UPS, w.requestId + 1, i);
  }

  /** Every event has that effect on every action. */
  lemma StepOutcome(w: World, e: Event, i: nat)
    requires Inv(w) && Enabled(w, e) && i < |w.form|
    ensures Outcome(w, e, i, Step(w, e))
    ensures LeavesPending(e, i) ==> Step(w, e).pending == w.pending
  {
    hide StartRefresh, Respond, ToggleBox, ValidTyped, Confirm, Entry, Claim, HoldsAs, FormInv, RequestInv;
    hide SentQuantity, Flush;
    match e
    case Toggled(n) =>
      TickedForm(w, n);
      TogglingKeepsCode(w.form[n]);
      RefreshedPlan(w.(form := w.form[n := ToggleBox(w.form[n])]), Some(n), MAX_GROWTH_FOLLOW_UPS, w.requestId + 1, i);
    case Edited(_, _, _) =>
    case TimerFired => FlushOutcome(w, e, i);
    case Blurred => FlushOutcome(w, e, i);
    case Responded(id, response) => ResponseOutcome(w, id, response, i);
  }

  lemma TogglingKeepsCode(b: Box)
    ensures ToggleBox(b).code == b.code
  {
  }

  /** What an event applies to a quantity action keeps its text while it is checked; only its confirmed quantity may
      move, to what the newest request claims. */
  ghost predicate KeepsText(b: Box, b': Box, newest: Option<real>) {
    && b'.isQuantity && b'.total == b.total && b'.code == b.code
    && b'.errorOnLoad == b.errorOnLoad && b'.checked == b.checked
    && (b.checked ==> b'.typed == b.typed && (b'.chosen == b.chosen || (newest.Some? && b'.chosen == newest)))
    && (!b.checked ==> b'.typed == b.typed || b'.typed == Blank)
  }

  lemma ReportKeepsText(b: Box, report: Report, sent: Option<real>, allowGrowth: bool)
    requires b.isQuantity
    ensures KeepsText(b, ApplyReport(b, report, sent, allowGrowth), sent)
  {
    hide ValidTyped;
  }

  lemma AppliedKeepsText(w: World, e: Event, i: nat)
    requires Inv(w) && Enabled(w, e) && i < |w.form| && w.form[i].isQuantity && LeavesPending(e, i)
    ensures KeepsText(w.form[i], Applied(w, e, i), NewestClaim(w, w.form[i].code))
  {
    hide ApplyReport, OfferedBefore, SentQuantity, FormInv, RequestInv;
    if e.Responded? && e.id == w.requestId && e.response.Some? {
      var report := FindReport(e.response.value, w.form[i].code);
      if report.Some? {
        ReportKeepsText(w.form[i], report.value, SentQuantity(w.sent[e.id - 1].plan, w.form[i].code),
                        !OfferedBefore(w.form, e.response.value, i));
      }
    }
  }

  // ----- an edit in range -----

  /** The text waits in the field; only an unchecked action may lose it. */
  predicate InRangeWaits(b: Box, total: Option<real>, text: Text, checked: bool) {
    && b.isQuantity && b.total == total && b.checked == checked
    && (b.typed == text || (!checked && b.typed == Blank))
  }

  lemma InRangeKept(b: Box, b': Box, total: Option<real>, text: Text, checked: bool, newest: Option<real>)
    requires TextInRange(total, text) && InRangeWaits(b, total, text, checked) && KeepsText(b, b', newest)
    ensures InRangeWaits(b', total, text, checked) && Confirm(b') == b'
  {
  }

  lemma InRangeStep(w: World, e: Event, i: nat, total: Option<real>, text: Text, checked: bool)
    requires Inv(w) && Enabled(w, e) && LeavesPending(e, i) && TextInRange(total, text)
    requires w.pending == Some(i) && i < |w.form| && InRangeWaits(w.form[i], total, text, checked)
    ensures var w' := Step(w, e);
            w'.pending == Some(i) && i < |w'.form| && InRangeWaits(w'.form[i], total, text, checked)
  {
    hide Step, Inv, Enabled, Applied, Confirm, KeepsText, NewestClaim, Entry, Claim;
    StepOutcome(w, e, i);
    AppliedKeepsText(w, e, i);
    InRangeKept(w.form[i], Applied(w, e, i), total, text, checked, NewestClaim(w, w.form[i].code));
  }

  /** From the edit at `j` until `k` nothing else concerns it, and `k` consumes its debounce. */
  ghost predicate EditWaits(events: seq<Event>, i: nat, text: Text, changed: bool, j: nat, k: nat) {
    && j < k < |events| && events[j] == Edited(i, text, changed) && (events[k].TimerFired? || events[k].Blurred?)
    && forall n :: j < n < k ==> LeavesPending(events[n], i)
  }

  lemma {:induction false} InRangeRun(
    rendered: seq<Box>, trace: seq<World>, events: seq<Event>,
    i: nat, text: Text, changed: bool, j: nat, k: nat, n: nat)
    requires PageRun(rendered, trace, events) && EditWaits(events, i, text, changed, j, k) && j < n <= k < |trace|
    requires i < |trace[j].form| && TextInRange(trace[j].form[i].total, text)
    ensures trace[n].pending == Some(i) && i < |trace[n].form|
    ensures InRangeWaits(trace[n].form[i], trace[j].form[i].total, text, trace[j].form[i].checked)
    decreases n
  {
    hide PageRun, Inv;
    RunStep(rendered, trace, events, n - 1);
    if n > j + 1 {
      hide Step, Enabled, InRangeWaits, LeavesPending;
      InRangeRun(rendered, trace, events, i, text, changed, j, k, n - 1);
      RunKeepsInv(rendered, trace, events, n - 1);
      InRangeStep(trace[n - 1], events[n - 1], i, trace[j].form[i].total, text, trace[j].form[i].checked);
    }
  }

  /** The debounce of action `i` is consumed: a request goes out exactly if the text is then in range, and claims it. */
  lemma FlushSendsExactlyInRange(w: World, i: nat)
    requires Inv(w) && w.pending == Some(i) && w.form[i].isQuantity
    ensures var w', b := Flush(w), w.form[i];
            && (w'.sent != w.sent <==> TextInRange(b.total, b.typed))
            && (w'.sent != w.sent ==>
                  && |w'.sent| == |w.sent| + 1 && w'.sent[|w.sent|].trigger == Some(i)
                  && (b.checked && b.unit != "" ==>
                        SentQuantity(w'.sent[|w.sent|].plan, b.code) == Some(b.typed.value)))
  {
    hide StartRefresh, SentQuantity, FormInv, RequestInv;
    RangeIsValidity(w.form[i]);
    RefreshedPlan(w.(pending := None), Some(i), MAX_GROWTH_FOLLOW_UPS, w.requestId + 1, i);
  }

  /** An edit in range, whatever responses and other ticks come before its debounce is consumed: on a checked action a
      request goes out and claims exactly what was typed; on an unchecked one exactly if no response has emptied the
      field. */
  lemma EditInRangeIsSent(
    rendered: seq<Box>, trace: seq<World>, events: seq<Event>, i: nat, text: Text, changed: bool, j: nat, k: nat)
    requires PageRun(rendered, trace, events) && EditWaits(events, i, text, changed, j, k) && |trace| == |events| + 1
    requires i < |trace[j].form| && TextInRange(trace[j].form[i].total, text)
    ensures i < |trace[k].form|
    ensures var b, sends := trace[k].form[i], trace[k + 1].sent != trace[k].sent;
            && (sends <==> b.typed == text) && b.checked == trace[j].form[i].checked
            && (b.checked ==> sends)
            && (sends ==>
                  && |trace[k + 1].sent| == |trace[k].sent| + 1 && trace[k + 1].sent[|trace[k].sent|].trigger == Some(i)
                  && (b.checked && b.unit != "" ==>
                        SentQuantity(trace[k + 1].sent[|trace[k].sent|].plan, b.code) == Some(text.value)))
  {
    hide PageRun, Inv, Flush, LeavesPending, SentQuantity;
    InRangeRun(rendered, trace, events, i, text, changed, j, k, k);
    RunKeepsInv(rendered, trace, events, k);
    RunStep(rendered, trace, events, k);
    PendingIsShown(trace[k], i);
    FlushSendsExactlyInRange(trace[k], i);
  }

  lemma PendingIsShown(w: World, i: nat)
    requires Inv(w) && w.pending == Some(i)
    ensures i < |w.form|
  {
  }

  // ----- an edit out of range -----

  /** The text was put back: the field shows the confirmed quantity, and the newest request claims no other. */
  predicate PutBack(b: Box, newest: Option<real>) {
    && b.chosen.Some? && b.typed == Amount(b.chosen.value) && ValidQuantity(b.total, b.chosen.value)
    && (newest.None? || newest == b.chosen)
  }

  /** Where an edit out of range can have got to; `refreshed`: a request has gone out since. */
  predicate OutOfRangeWaits(b: Box, total: Option<real>, text: Text, refreshed: bool, newest: Option<real>) {
    && b.isQuantity && b.total == total
    && if !b.checked then !TextInRange(total, b.typed)
       else if b.errorOnLoad || !refreshed then b.typed == text
       else PutBack(b, newest)
  }

  /** The event applies `b'` and sends nothing. */
  lemma OutOfRangeKept(
    b: Box, b': Box, total: Option<real>, text: Text, refreshed: bool, newest: Option<real>)
    requires !TextInRange(total, text) && OutOfRangeWaits(b, total, text, refreshed, newest)
    requires KeepsText(b, b', newest)
    ensures OutOfRangeWaits(b', total, text, refreshed, newest)
  {
  }

  /** The event applies `b'` and sends a request, which confirms it. */
  lemma OutOfRangeConfirmed(
    b: Box, b': Box, total: Option<real>, text: Text, refreshed: bool, newest: Option<real>)
    requires !TextInRange(total, text) && OutOfRangeWaits(b, total, text, refreshed, newest)
    requires KeepsText(b, b', newest) && BoxInv(b')
    ensures var c := Confirm(b');
            OutOfRangeWaits(c, total, text, true, if Entry(c).Some? then Claim(c) else None)
  {
    RangeIsValidity(b');
    OutOfRangeKept(b, b', total, text, refreshed, newest);
  }

  lemma AppliedKeepsInv(w: World, e: Event, i: nat)
    requires Inv(w) && Enabled(w, e) && i < |w.form| && LeavesPending(e, i)
    ensures BoxInv(Applied(w, e, i))
  {
    hide ApplyOne, RecoverBox, BoxInv, RequestInv;
    if e.Responded? && e.id == w.requestId {
      if e.response.None? {
        LoopsKeepBox(w.form[i], false);
      } else {
        ResponseFormsKeepInv(w, e.id, e.response.value);
        assert SettledForm(w, w.sent[e.id - 1], e.response.value)[i] == Applied(w, e, i);
      }
    }
  }

  lemma HeldWaits(a: Box, b: Box, total: Option<real>, text: Text, refreshed: bool, newest: Option<real>)
    requires HoldsAs(a, b) && OutOfRangeWaits(a, total, text, refreshed, newest)
    ensures OutOfRangeWaits(b, total, text, refreshed, newest)
  {
  }

  /** The pending edit of action `i` after the first `sent` requests. */
  ghost predicate OutOfRangePending(w: World, i: nat, code: string, total: Option<real>, text: Text, sent: nat) {
    && w.pending == Some(i) && i < |w.form| && w.form[i].code == code && sent <= |w.sent|
    && OutOfRangeWaits(w.form[i], total, text, sent < |w.sent|, NewestClaim(w, code))
  }

  lemma OutOfRangeStep(w: World, e: Event, i: nat, code: string, total: Option<real>, text: Text, sent: nat)
    requires Inv(w) && Enabled(w, e) && LeavesPending(e, i) && !TextInRange(total, text)
    requires OutOfRangePending(w, i, code, total, text, sent)
    ensures OutOfRangePending(Step(w, e), i, code, total, text, sent)
  {
    hide Step, Inv, Enabled, Applied, Confirm, NewestClaim, Entry, Claim, BoxInv, PutBack;
    StepOutcome(w, e, i);
    AppliedKeepsText(w, e, i);
    AppliedKeepsInv(w, e, i);
    HoldsAsItself(Applied(w, e, i));
    var b, b', newest := w.form[i], Applied(w, e, i), NewestClaim(w, code);
    var w' := Step(w, e);
    if |w'.sent| == |w.sent| {
      OutOfRangeKept(b, b', total, text, sent < |w.sent|, newest);
      HeldWaits(b', w'.form[i], total, text, sent < |w.sent|, newest);
      SameNewest(w, w', code);
    } else {
      ConfirmingKeepsCode(b');
      OutOfRangeConfirmed(b, b', total, text, sent < |w.sent|, newest);
      HeldWaits(Confirm(b'), w'.form[i], total, text, true, NewestClaim(w', code));
    }
  }

  lemma SameNewest(w: World, w': World, code: string)
    requires w'.sent == w.sent
    ensures NewestClaim(w', code) == NewestClaim(w, code)
  {
  }

  lemma {:induction false} OutOfRangeRun(
    rendered: seq<Box>, trace: seq<World>, events: seq<Event>,
    i: nat, text: Text, changed: bool, j: nat, k: nat, n: nat)
    requires PageRun(rendered, trace, events) && EditWaits(events, i, text, changed, j, k) && j < n <= k < |trace|
    requires i < |trace[j].form| && !TextInRange(trace[j].form[i].total, text)
    ensures OutOfRangePending(trace[n], i, trace[j].form[i].code, trace[j].form[i].total, text, |trace[j].sent|)
    decreases n
  {
    hide PageRun, Inv, NewestClaim;
    RunStep(rendered, trace, events, n - 1);
    if n > j + 1 {
      OutOfRangeRun(rendered, trace, events, i, text, changed, j, k, n - 1);
      RunKeepsInv(rendered, trace, events, n - 1);
      var b := trace[j].form[i];
      OutOfRangeStep(trace[n - 1], events[n - 1], i, b.code, b.total, text, |trace[j].sent|);
    }
  }

  /** An edit out of range, whatever responses and other ticks come before its debounce is consumed: a request goes out
      exactly if another request went out since and put back a confirmed quantity, that is, the action is checked, not
      protected and has one; it then claims that quantity and not the edit. */
  lemma EditOutOfRangeIsSentExactlyWhen(
    rendered: seq<Box>, trace: seq<World>, events: seq<Event>, i: nat, text: Text, changed: bool, j: nat, k: nat)
    requires PageRun(rendered, trace, events) && EditWaits(events, i, text, changed, j, k) && |trace| == |events| + 1
    requires i < |trace[j].form| && !TextInRange(trace[j].form[i].total, text)
    ensures i < |trace[k].form|
    ensures var b, sends := trace[k].form[i], trace[k + 1].sent != trace[k].sent;
            && (sends <==> |trace[k].sent| > |trace[j].sent| && b.checked && !Protected(b) && b.chosen.Some?)
            && (sends ==>
                  && |trace[k + 1].sent| == |trace[k].sent| + 1 && trace[k + 1].sent[|trace[k].sent|].trigger == Some(i)
                  && b.typed == Amount(b.chosen.value)
                  && (b.unit != "" ==> SentQuantity(trace[k + 1].sent[|trace[k].sent|].plan, b.code) == b.chosen))
  {
    hide PageRun, Inv, Flush, LeavesPending, SentQuantity, NewestClaim;
    OutOfRangeRun(rendered, trace, events, i, text, changed, j, k, k);
    RunKeepsInv(rendered, trace, events, k);
    RunStep(rendered, trace, events, k);
    PendingIsShown(trace[k], i);
    FlushSendsExactlyInRange(trace[k], i);
  }

  // ----- the input -----

  ghost const HECTARE_TYPED: Box :=
    Box("Q", true, Some(2.0), "ha", true, false, false, false, Amount(1.0), None, Blank, None, false)

  ghost const HECTARE_HELD: Box :=
    Box("N", false, Some(2.0), "ha", true, false, false, false, Blank, None, Amount(1.0), None, false)

  /** A rendered page with one confirmed hectare asks at once, and the user types 99; the answer lets another action
      grow, whose follow-up puts the hectare back; when the timer fires, a third request claims it. */
  lemma InvalidEditMayBeSent()
    ensures var w1 := InitPage([HECTARE_TYPED, HECTARE_HELD]);
            && Enabled(w1, Edited(0, Amount(99.0), true))
            && var w2 := Edit(w1, 0, Amount(99.0), true);
               var answer := Some([Report("N", Some(Area(1.0, "ha")))]);
               Enabled(w2, Responded(1, answer))
               && var w3 := Respond(w2, 1, answer);
                  && Enabled(w3, TimerFired) && |w3.sent| == 2
                  && |Flush(w3).sent| == 3 && Flush(w3).sent[2].trigger == Some(0)
                  && SentQuantity(Flush(w3).sent[2].plan, "Q") == Some(1.0)
  {
    var w1, w2, w3 := AfterInvalidEdit();
    hide Respond, InitPage, Edit, StartRefresh, SentQuantity;
    FlushSendsExactlyInRange(w3, 0);
  }

  lemma AfterInvalidEdit() returns (w1: World, w2: World, w3: World)
    ensures w1 == InitPage([HECTARE_TYPED, HECTARE_HELD]) && Enabled(w1, Edited(0, Amount(99.0), true))
    ensures w2 == Edit(w1, 0, Amount(99.0), true)
    ensures Enabled(w2, Responded(1, Some([Report("N", Some(Area(1.0, "ha")))])))
    ensures w3 == Respond(w2, 1, Some([Report("N", Some(Area(1.0, "ha")))]))
    ensures Inv(w3) && w3.pending == Some(0) && |w3.sent| == 2
    ensures w3.form[0].isQuantity && w3.form[0].checked && w3.form[0].unit == "ha" && w3.form[0].code == "Q"
    ensures w3.form[0].total == Some(2.0) && w3.form[0].typed == Amount(1.0)
  {
    hide Plan, Inv, SentQuantity, ApplyReport, RenderedClaim;
    var answer := [Report("N", Some(Area(1.0, "ha")))];
    w1 := OpenedPage();
    w2 := Edit(w1, 0, Amount(99.0), true);
    StepKeepsInv(w1, Edited(0, Amount(99.0), true));
    w3 := Respond(w2, 1, Some(answer));
    RespondKeepsInv(w2, 1, Some(answer));
    assert Offered(w2.form[1], answer);
  }

  lemma OpenedPage() returns (w: World)
    ensures w == InitPage([HECTARE_TYPED, HECTARE_HELD]) && Inv(w) && Live(w) && w.requestId == 1 && |w.sent| == 1
    ensures w.sent[0].trigger.None? && w.sent[0].followUpsLeft == MAX_GROWTH_FOLLOW_UPS
    ensures w.form == [HECTARE_TYPED.(chosen := Some(1.0)), HECTARE_HELD]
  {
    hide Plan, Inv;
    var rendered := [HECTARE_TYPED, HECTARE_HELD];
    InitKeepsInv(rendered);
    RenderedPageAsks(rendered);
    assert RenderedClaim(rendered[0]);
    w := InitPage(rendered);
  }
}
