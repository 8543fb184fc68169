/**
 * The select-actions page as the script has it: checkbox elements whose properties are overwritten in place, loops over
 * all of them, and the counter and pending debounce captured by the handlers.  Every method is proved equal to its
 * function in RefreshModel on the viewed state.
 */
module RefreshPage {
  import opened Common
  import opened RefreshModel

  class Checkbox {
    const code: string
    const isQuantity: bool
    const total: Option<real>
    var unit: string
    var checked: bool
    var disabled: bool
    var inputDisabled: bool
    var message: bool
    var typed: Text
    var chosen: Option<real>
    var hidden: Text
    var live: Option<real>
    var errorOnLoad: bool

    function View(): Box
      reads this
    {
      Box(code, isQuantity, total, unit, checked, disabled, inputDisabled, message,
          typed, chosen, hidden, live, errorOnLoad)
    }

    constructor (b: Box)
      ensures View() == b
    {
      code, isQuantity, total, unit := b.code, b.isQuantity, b.total, b.unit;
      checked, disabled, inputDisabled, message := b.checked, b.disabled, b.inputDisabled, b.message;
      typed, chosen, hidden, live, errorOnLoad := b.typed, b.chosen, b.hidden, b.live, b.errorOnLoad;
    }

    method SetDisabled()
      modifies this
      ensures View() == Disable(old(View()))
    {
      disabled := true;
      if isQuantity {
        inputDisabled := true;
      }
    }

    method WipeChosenArea()
      modifies this
      ensures View() == ClearChosenArea(old(View()))
    {
      if isQuantity {
        chosen := None;
      } else {
        hidden := Amount(0.0);
      }
    }

    method SetUnavailable()
      modifies this
      ensures View() == MarkUnavailable(old(View()))
    {
      checked := false;
      disabled := true;
      WipeChosenArea();
      if isQuantity {
        typed := Blank;
        inputDisabled := true;
      }
      message := true;
    }

    method SetAvailable()
      modifies this
      ensures View() == ClearUnavailable(old(View()))
    {
      disabled := false;
      if isQuantity {
        inputDisabled := false;
      }
      message := false;
    }

    method RevertUnconfirmed()
      modifies this
      ensures View() == Confirm(old(View()))
    {
      if Protected(View()) || !checked || !isQuantity || ValidTyped(View()).Some? {
        return;
      }
      var confirmed := ChosenArea(View());
      if confirmed.Some? {
        typed := Amount(confirmed.value);
      } else {
        checked := false;
        typed := Blank;
      }
    }

    method SeedConfirmed()
      modifies this
      ensures View() == Seed(old(View()))
    {
      if checked && isQuantity && typed != Blank {
        var valid := ValidTyped(View());
        if valid.Some? {
          chosen := valid;
        }
      }
    }

    method ApplyUncheckedAvailability(area: Option<Area>)
      modifies this
      ensures View() == ApplyUnchecked(old(View()), area)
    {
      var unavailable;
      if area.Some? && isQuantity {
        var valid := ValidTyped(View());
        unavailable := area.value.value == 0.0 || area.value.value < (if valid.Some? then valid.value else 0.0);
      } else {
        unavailable := area.Some? && area.value.value == 0.0;
      }
      if unavailable {
        SetUnavailable();
      } else {
        SetAvailable();
      }
    }

    method ApplyCheckedQuantityAvailability(sent: Option<real>)
      modifies this
      ensures View() == ApplyCheckedQuantity(old(View()), sent)
    {
      if sent.Some? {
        chosen := sent;
      }
      SetAvailable();
    }

    method ApplyCheckedNonQuantityAvailability(headroom: real, sent: Option<real>, allowGrowth: bool)
      returns (grew: bool)
      requires !isQuantity
      modifies this
      ensures View() == ApplyCheckedNonQuantity(old(View()), headroom, sent, allowGrowth)
      ensures grew == (allowGrowth && headroom > 0.0)
    {
      grew := allowGrowth && headroom > 0.0;
      if sent.None? {
        hidden := NotANumber;
        SetAvailable();
        return;
      }
      var area := if grew then sent.value + headroom else sent.value;
      hidden := Amount(area);
      if area == 0.0 {
        SetUnavailable();
      } else {
        SetAvailable();
      }
    }

    method ApplyAvailability(report: Report, sent: Option<real>, isProtected: bool, allowGrowth: bool)
      returns (grew: bool)
      requires isProtected == Protected(View())
      modifies this
      ensures View() == ApplyReport(old(View()), report, sent, allowGrowth)
      ensures grew == (allowGrowth && old(View()).checked && !isProtected && !old(View()).isQuantity
                       && report.area.Some? && report.area.value.value > 0.0)
    {
      if report.area.Some? {
        unit := report.area.value.unit;
        live := Some(report.area.value.value);
      }
      grew := false;
      if !checked {
        ApplyUncheckedAvailability(report.area);
      } else if report.area.None? {
      } else if isProtected {
        SetAvailable();
      } else if isQuantity {
        ApplyCheckedQuantityAvailability(sent);
      } else {
        grew := ApplyCheckedNonQuantityAvailability(report.area.value.value, sent, allowGrowth);
      }
    }

    method FlipByUser()
      modifies this
      ensures View() == ToggleBox(old(View()))
    {
      checked := !checked;
      errorOnLoad := false;
      if !checked {
        if isQuantity {
          typed := Blank;
        }
        WipeChosenArea();
      }
    }
  }

  function Views(boxes: seq<Checkbox>): (form: seq<Box>)
    reads boxes
    ensures |form| == |boxes|
    ensures forall i :: 0 <= i < |boxes| ==> form[i] == boxes[i].View()
  {
    seq(|boxes|, i requires 0 <= i < |boxes| reads boxes => boxes[i].View())
  }

  class SelectActionsPage {
    const boxes: seq<Checkbox>
    var requestId: nat
    var sent: seq<Request>
    var answered: set<nat>
    var pending: Option<nat>

    ghost predicate Distinct() {
      forall i, j :: 0 <= i < j < |boxes| ==> boxes[i] != boxes[j]
    }

    ghost predicate Valid()
      reads this
    {
      && Distinct()
      && |sent| == requestId
      && (pending.Some? ==> pending.value < |boxes|)
    }

    function Now(): World
      reads this, boxes
    {
      World(Views(boxes), requestId, sent, answered, pending)
    }

    /** The page script's initialisation on the server-rendered checkboxes. */
    constructor (rendered: seq<Checkbox>)
      requires forall i, j :: 0 <= i < j < |rendered| ==> rendered[i] != rendered[j]
      modifies rendered
      ensures Valid() && boxes == rendered
      ensures Now() == InitPage(old(Views(rendered)))
    {
      boxes := rendered;
      requestId, sent, answered, pending := 0, [], {}, None;
      new;
      hide StartRefresh, Plan, SeedAll, Views;
      SeedConfirmedQuantities();
      var plan := BuildPlannedActions();
      if plan != [] {
        RefreshAvailability(None, MAX_GROWTH_FOLLOW_UPS, requestId + 1);
      }
    }

    method SeedConfirmedQuantities()
      requires Distinct()
      modifies boxes
      ensures Views(boxes) == SeedAll(old(Views(boxes)))
    {
      hide Checkbox.View, Seed;
      var i := 0;
      while i < |boxes|
        invariant 0 <= i <= |boxes|
        invariant forall j :: 0 <= j < i ==> boxes[j].View() == Seed(old(boxes[j].View()))
        invariant forall j :: i <= j < |boxes| ==> boxes[j].View() == old(boxes[j].View())
      {
        boxes[i].SeedConfirmed();
        i := i + 1;
      }
      assert Views(boxes) == SeedAll(old(Views(boxes)));
    }

    method UncheckUnconfirmedQuantityActions()
      requires Distinct()
      modifies boxes
      ensures Views(boxes) == ConfirmAll(old(Views(boxes)))
    {
      hide Checkbox.View, Confirm;
      var i := 0;
      while i < |boxes|
        invariant 0 <= i <= |boxes|
        invariant forall j :: 0 <= j < i ==> boxes[j].View() == Confirm(old(boxes[j].View()))
        invariant forall j :: i <= j < |boxes| ==> boxes[j].View() == old(boxes[j].View())
      {
        boxes[i].RevertUnconfirmed();
        i := i + 1;
      }
      assert Views(boxes) == ConfirmAll(old(Views(boxes)));
    }

    method DisableOtherActions(trigger: nat)
      requires Distinct()
      modifies boxes
      ensures Views(boxes) == DisableOthers(old(Views(boxes)), trigger)
    {
      hide Checkbox.View, Disable;
      var i := 0;
      while i < |boxes|
        invariant 0 <= i <= |boxes|
        invariant forall j :: 0 <= j < i ==> boxes[j].View() == DisableIfOther(old(boxes[j].View()), j == trigger)
        invariant forall j :: i <= j < |boxes| ==> boxes[j].View() == old(boxes[j].View())
      {
        if i != trigger && !Protected(boxes[i].View()) {
          boxes[i].SetDisabled();
        }
        i := i + 1;
      }
      assert Views(boxes) == DisableOthers(old(Views(boxes)), trigger);
    }

    method RecoverFromFailedRefresh()
      requires Distinct()
      modifies boxes
      ensures Views(boxes) == Recover(old(Views(boxes)))
    {
      hide Checkbox.View, ClearUnavailable;
      var i := 0;
      while i < |boxes|
        invariant 0 <= i <= |boxes|
        invariant forall j :: 0 <= j < i ==> boxes[j].View() == RecoverBox(old(boxes[j].View()))
        invariant forall j :: i <= j < |boxes| ==> boxes[j].View() == old(boxes[j].View())
      {
        if !Protected(boxes[i].View()) {
          boxes[i].SetAvailable();
        }
        i := i + 1;
      }
      assert Views(boxes) == Recover(old(Views(boxes)));
    }

    method BuildPlannedActions() returns (plan: seq<Planned>)
      ensures plan == Plan(Views(boxes))
    {
      plan := [];
      var i := 0;
      while i < |boxes|
        invariant 0 <= i <= |boxes|
        invariant plan == Plan(Views(boxes)[..i])
      {
        var b := boxes[i].View();
        assert Views(boxes)[..i + 1][..i] == Views(boxes)[..i];
        if b.checked {
          var quantity := Claim(b);
          if quantity.Some? && b.unit != "" {
            plan := plan + [Planned(b.code, quantity.value, b.unit)];
          }
        }
        i := i + 1;
      }
      assert Views(boxes)[..|boxes|] == Views(boxes);
    }

    lemma OfferedUpTo(form: seq<Box>, actions: seq<Report>, i: nat)
      requires i < |form|
      ensures OfferedBefore(form, actions, i + 1) == (OfferedBefore(form, actions, i) || Offered(form[i], actions))
    {
    }

    /** At most one action grows: `grown` is raised by the first one and forbids the others. */
    method ApplyRefreshResponse(actions: seq<Report>, plan: seq<Planned>) returns (grown: bool)
      requires Distinct()
      modifies boxes
      ensures Views(boxes) == ApplyResponse(old(Views(boxes)), actions, plan)
      ensures grown == Grew(old(Views(boxes)), actions)
    {
      hide ApplyReport, FindReport, SentQuantity, Checkbox.View;
      ghost var form := Views(boxes);
      grown := false;
      var i := 0;
      while i < |boxes|
        invariant 0 <= i <= |boxes|
        invariant grown == OfferedBefore(form, actions, i)
        invariant forall j :: 0 <= j < i ==> boxes[j].View() == ApplyOne(form, actions, plan, j)
        invariant forall j :: i <= j < |boxes| ==> boxes[j].View() == form[j]
      {
        var box, b := boxes[i], boxes[i].View();
        var report := FindReport(actions, b.code);
        OfferedUpTo(form, actions, i);
        if report.Some? {
          var grew := box.ApplyAvailability(report.value, SentQuantity(plan, b.code), Protected(b), !grown);
          assert grew == (!grown && Offered(b, actions));
          grown := grown || grew;
        }
        i := i + 1;
      }
      assert Views(boxes) == ApplyResponse(form, actions, plan);
    }

    /** Up to the moment the request is awaited. */
    method RefreshAvailability(trigger: Option<nat>, followUpsLeft: nat, root: nat)
      requires Valid()
      modifies this, boxes
      ensures Valid()
      ensures Now() == StartRefresh(old(Now()), trigger, followUpsLeft, root)
    {
      hide Plan, ConfirmAll, DisableOthers, Views, Distinct, Checkbox.View;
      ghost var was := Now();
      UncheckUnconfirmedQuantityActions();
      requestId := requestId + 1;
      var id := requestId;
      if trigger.Some? && followUpsLeft == MAX_GROWTH_FOLLOW_UPS {
        DisableOtherActions(trigger.value);
      }
      assert Views(boxes) == OpeningForm(was.form, trigger, followUpsLeft);
      hide OpeningForm;
      var plan := BuildPlannedActions();
      sent := sent + [Request(id, root, trigger, followUpsLeft, plan)];
    }

    /** The call awaiting request `id` resumes. */
    method OnResponse(id: nat, response: Option<seq<Report>>)
      requires Valid() && Awaiting(Now(), id)
      modifies this, boxes
      ensures Valid()
      ensures Now() == Respond(old(Now()), id, response)
    {
      hide StartRefresh, ApplyResponse, Grew, Recover, DisableOthers, Views, Distinct;
      var request := sent[id - 1];
      answered := answered + {id};
      if id != requestId {
        return;
      }
      if response.None? {
        RecoverFromFailedRefresh();
        return;
      }
      var anyGrew := ApplyRefreshResponse(response.value, request.plan);
      if anyGrew && request.followUpsLeft > 0 {
        if request.trigger.Some? {
          DisableOtherActions(request.trigger.value);
        }
        RefreshAvailability(request.trigger, request.followUpsLeft - 1, request.root);
      }
    }

    /** The change handler of checkbox `i`. */
    method OnChange(i: nat)
      requires Valid() && i < |boxes|
      modifies this, boxes
      ensures Valid()
      ensures Now() == Toggle(old(Now()), i)
    {
      boxes[i].FlipByUser();
      assert Views(boxes) == old(Views(boxes))[i := ToggleBox(old(Views(boxes))[i])];
      if boxes[i].checked && boxes[i].isQuantity && ValidTyped(boxes[i].View()).None? {
        return;
      }
      RefreshAvailability(Some(i), MAX_GROWTH_FOLLOW_UPS, requestId + 1);
    }

    /** The input handler of the quantity field of checkbox `i`. */
    method OnInput(i: nat, text: Text, changed: bool)
      requires Valid() && i < |boxes|
      modifies this, boxes
      ensures Valid()
      ensures Now() == Edit(old(Now()), i, text, changed)
    {
      boxes[i].typed := text;
      if changed {
        boxes[i].errorOnLoad := false;
      }
      pending := Some(i);
      assert Views(boxes) == Edit(old(Now()), i, text, changed).form;
    }

    /** The debounce timer fires, or the field loses focus. */
    method FlushPending()
      requires Valid()
      modifies this, boxes
      ensures Valid()
      ensures Now() == Flush(old(Now()))
    {
      if pending.None? {
        return;
      }
      var i := pending.value;
      pending := None;
      if ValidTyped(boxes[i].View()).Some? {
        RefreshAvailability(Some(i), MAX_GROWTH_FOLLOW_UPS, requestId + 1);
      }
    }
  }
}
