/**
 * The live availability refresher of the select-actions page, on values.
 *
 * `Box` is everything the script reads or writes on one action checkbox and its own quantity field;
 * `World` adds the request counter, the requests put on the wire and the pending debounce.  The classes in
 * RefreshPage.dfy update those fields in place and are proved against the functions of this module.
 */
module RefreshModel {
  import opened Common

  // ----- what a checkbox holds -----

  /** The text of an input as JavaScript's Number() reads it: blank is 0, anything unreadable is NaN. */
  datatype Text = Blank | NotANumber | Amount(value: real)

  function ToNumber(text: Text): Option<real> {
    match text
    case Blank => Some(0.0)
    case NotANumber => None
    case Amount(value) => Some(value)
  }

  /**
   * `total` is None when data-total-available-area does not read as a finite number; `live` and `chosen` are None while
   * their data attribute is absent; `hidden` is the hidden chosen-area field of a non-quantity action; an empty
   * `unit` is a missing one.
   */
  datatype Box = Box(
    code: string, isQuantity: bool, total: Option<real>,
    unit: string, checked: bool, disabled: bool, inputDisabled: bool, message: bool,
    typed: Text, chosen: Option<real>, hidden: Text, live: Option<real>, errorOnLoad: bool)

  predicate Protected(b: Box) {
    b.checked && b.errorOnLoad
  }

  function LiveArea(b: Box): Option<real> {
    if b.live.None? then b.total else b.live
  }

  function ChosenArea(b: Box): Option<real> {
    if b.isQuantity then b.chosen
    else if ToNumber(b.hidden).Some? && ToNumber(b.hidden).value > 0.0 then ToNumber(b.hidden)
    else None
  }

  predicate ValidQuantity(total: Option<real>, quantity: real) {
    quantity > 0.0 && (total.Some? ==> quantity <= total.value)
  }

  function ValidTyped(b: Box): Option<real> {
    if b.isQuantity && b.typed.Amount? && ValidQuantity(b.total, b.typed.value) then Some(b.typed.value) else None
  }

  function Claim(b: Box): Option<real> {
    if b.isQuantity then ValidTyped(b).Or(ChosenArea(b)) else ChosenArea(b).Or(LiveArea(b))
  }

  // ----- in-place updates of one checkbox -----

  function ClearChosenArea(b: Box): Box {
    if b.isQuantity then b.(chosen := None) else b.(hidden := Amount(0.0))
  }

  function Disable(b: Box): Box {
    b.(disabled := true, inputDisabled := b.isQuantity || b.inputDisabled)
  }

  function MarkUnavailable(b: Box): Box {
    var cleared := ClearChosenArea(b.(checked := false, disabled := true, message := true));
    if b.isQuantity then cleared.(typed := Blank, inputDisabled := true) else cleared
  }

  function ClearUnavailable(b: Box): Box {
    b.(disabled := false, inputDisabled := !b.isQuantity && b.inputDisabled, message := false)
  }

  /** A checked quantity action without a valid typed value falls back to its confirmed value, or is unchecked. */
  predicate Unconfirmed(b: Box) {
    !Protected(b) && b.checked && b.isQuantity && ValidTyped(b).None?
  }

  function Confirm(b: Box): Box {
    if !Unconfirmed(b) then b
    else if ChosenArea(b).Some? then b.(typed := Amount(ChosenArea(b).value))
    else b.(checked := false, typed := Blank)
  }

  function Seed(b: Box): Box {
    if b.checked && ValidTyped(b).Some? then b.(chosen := ValidTyped(b)) else b
  }

  // ----- plans and responses -----

  datatype Planned = Planned(code: string, quantity: real, unit: string)

  datatype Area = Area(value: real, unit: string)

  datatype Report = Report(code: string, area: Option<Area>)

  function Entry(b: Box): Option<Planned> {
    if b.checked && Claim(b).Some? && b.unit != "" then Some(Planned(b.code, Claim(b).value, b.unit)) else None
  }

  function AsSeq(entry: Option<Planned>): seq<Planned> {
    if entry.Some? then [entry.value] else []
  }

  function Plan(form: seq<Box>): seq<Planned> {
    if form == [] then [] else Plan(form[..|form| - 1]) + AsSeq(Entry(form[|form| - 1]))
  }

  /** What a plan claims for a code; a later entry overwrites an earlier one, as in a JavaScript Map. */
  function SentQuantity(plan: seq<Planned>, code: string): Option<real> {
    if plan == [] then None
    else if plan[|plan| - 1].code == code then Some(plan[|plan| - 1].quantity)
    else SentQuantity(plan[..|plan| - 1], code)
  }

  /** The first report on a code. */
  function FindReport(actions: seq<Report>, code: string): Option<Report> {
    if actions == [] then None
    else if actions[0].code == code then Some(actions[0])
    else FindReport(actions[1..], code)
  }

  function ReportedArea(actions: seq<Report>, code: string): Option<Area> {
    var report := FindReport(actions, code);
    if report.Some? then report.value.area else None
  }

  function ApplyUnchecked(b: Box, area: Option<Area>): Box {
    var enough := if ValidTyped(b).Some? then ValidTyped(b).value else 0.0;
    var unavailable :=
      if area.Some? && b.isQuantity then area.value.value == 0.0 || area.value.value < enough
      else area.Some? && area.value.value == 0.0;
    if unavailable then MarkUnavailable(b) else ClearUnavailable(b)
  }

  function ApplyCheckedQuantity(b: Box, sent: Option<real>): Box {
    ClearUnavailable(if sent.Some? then b.(chosen := sent) else b)
  }

  /** Without a sent quantity JavaScript writes "undefined" or "NaN" into the hidden field. */
  function ApplyCheckedNonQuantity(b: Box, headroom: real, sent: Option<real>, allowGrowth: bool): Box {
    var grows := allowGrowth && headroom > 0.0;
    if sent.None? then ClearUnavailable(b.(hidden := NotANumber))
    else
      var area := if grows then sent.value + headroom else sent.value;
      var written := b.(hidden := Amount(area));
      if area == 0.0 then MarkUnavailable(written) else ClearUnavailable(written)
  }

  function RecordArea(b: Box, area: Option<Area>): Box {
    if area.Some? then b.(unit := area.value.unit, live := Some(area.value.value)) else b
  }

  function ApplyReport(b: Box, report: Report, sent: Option<real>, allowGrowth: bool): Box {
    var b1 := RecordArea(b, report.area);
    if !b1.checked then ApplyUnchecked(b1, report.area)
    else if report.area.None? then b1
    else if Protected(b1) then ClearUnavailable(b1)
    else if b1.isQuantity then ApplyCheckedQuantity(b1, sent)
    else ApplyCheckedNonQuantity(b1, report.area.value.value, sent, allowGrowth)
  }

  /** The response offers this action extra land it may take. */
  predicate Offered(b: Box, actions: seq<Report>) {
    b.checked && !Protected(b) && !b.isQuantity
    && ReportedArea(actions, b.code).Some? && ReportedArea(actions, b.code).value.value > 0.0
  }

  ghost predicate OfferedBefore(form: seq<Box>, actions: seq<Report>, n: nat)
    requires n <= |form|
  {
    exists i :: 0 <= i < n && Offered(form[i], actions)
  }

  ghost function ApplyOne(form: seq<Box>, actions: seq<Report>, plan: seq<Planned>, i: nat): Box
    requires i < |form|
  {
    var b := form[i];
    var report := FindReport(actions, b.code);
    if report.None? then b
    else ApplyReport(b, report.value, SentQuantity(plan, b.code), !OfferedBefore(form, actions, i))
  }

  ghost function ApplyResponse(form: seq<Box>, actions: seq<Report>, plan: seq<Planned>): seq<Box>
  {
    seq(|form|, i requires 0 <= i < |form| => ApplyOne(form, actions, plan, i))
  }

  ghost predicate Grew(form: seq<Box>, actions: seq<Report>) {
    OfferedBefore(form, actions, |form|)
  }

  // ----- loops over the whole form -----

  function ConfirmAll(form: seq<Box>): seq<Box>
  {
    seq(|form|, i requires 0 <= i < |form| => Confirm(form[i]))
  }

  function SeedAll(form: seq<Box>): seq<Box>
  {
    seq(|form|, i requires 0 <= i < |form| => Seed(form[i]))
  }

  function DisableIfOther(b: Box, isTrigger: bool): Box {
    if isTrigger || Protected(b) then b else Disable(b)
  }

  function DisableOthers(form: seq<Box>, trigger: nat): seq<Box>
  {
    seq(|form|, i requires 0 <= i < |form| => DisableIfOther(form[i], i == trigger))
  }

  function RecoverBox(b: Box): Box {
    if Protected(b) then b else ClearUnavailable(b)
  }

  function Recover(form: seq<Box>): seq<Box>
  {
    seq(|form|, i requires 0 <= i < |form| => RecoverBox(form[i]))
  }

  // ----- the protocol -----

  const MAX_GROWTH_FOLLOW_UPS: nat := 3

  /** A request on the wire with the locals of the call awaiting it.  `root` is the id of the request that opened its
      chain; it is bookkeeping, no branch reads it. */
  datatype Request = Request(id: nat, root: nat, trigger: Option<nat>, followUpsLeft: nat, plan: seq<Planned>)

  /** `sent` holds every request ever issued, in order; `answered` the ids whose response has arrived. */
  datatype World = World(form: seq<Box>, requestId: nat, sent: seq<Request>, answered: set<nat>, pending: Option<nat>)

  ghost predicate Awaiting(w: World, id: nat) {
    0 < id <= |w.sent| && id !in w.answered
  }

  /** The newest request is still unanswered. */
  ghost predicate Live(w: World) {
    Awaiting(w, w.requestId)
  }

  function OpeningForm(form: seq<Box>, trigger: Option<nat>, followUpsLeft: nat): seq<Box> {
    if trigger.Some? && followUpsLeft == MAX_GROWTH_FOLLOW_UPS then DisableOthers(ConfirmAll(form), trigger.value)
    else ConfirmAll(form)
  }

  function StartRefresh(w: World, trigger: Option<nat>, followUpsLeft: nat, root: nat): World {
    var form := OpeningForm(w.form, trigger, followUpsLeft);
    var id := w.requestId + 1;
    w.(form := form, requestId := id, sent := w.sent + [Request(id, root, trigger, followUpsLeft, Plan(form))])
  }

  function OpenChain(w: World, trigger: Option<nat>): World {
    StartRefresh(w, trigger, MAX_GROWTH_FOLLOW_UPS, w.requestId + 1)
  }

  ghost function SettledForm(w: World, request: Request, actions: seq<Report>): seq<Box> {
    ApplyResponse(w.form, actions, request.plan)
  }

  ghost predicate Continues(w: World, request: Request, actions: seq<Report>) {
    Grew(w.form, actions) && request.followUpsLeft > 0
  }

  /** The form a follow-up request starts from. */
  ghost function FollowUpForm(w: World, request: Request, actions: seq<Report>): seq<Box> {
    var settled := SettledForm(w, request, actions);
    if request.trigger.Some? then DisableOthers(settled, request.trigger.value) else settled
  }

  /** `response` is None for a failed request. */
  ghost function Respond(w: World, id: nat, response: Option<seq<Report>>): World
    requires Awaiting(w, id)
  {
    var request := w.sent[id - 1];
    var w1 := w.(answered := w.answered + {id});
    if id != w.requestId then w1
    else if response.None? then w1.(form := Recover(w.form))
    else
      if !Continues(w, request, response.value) then w1.(form := SettledForm(w, request, response.value))
      else
        StartRefresh(w1.(form := FollowUpForm(w, request, response.value)),
                     request.trigger, request.followUpsLeft - 1, request.root)
  }

  function ToggleBox(b: Box): Box {
    var b1 := b.(checked := !b.checked, errorOnLoad := false);
    if b1.checked then b1
    else ClearChosenArea(if b1.isQuantity then b1.(typed := Blank) else b1)
  }

  function Toggle(w: World, i: nat): World
    requires i < |w.form|
  {
    var b := ToggleBox(w.form[i]);
    var w1 := w.(form := w.form[i := b]);
    if b.checked && b.isQuantity && ValidTyped(b).None? then w1 else OpenChain(w1, Some(i))
  }

  /** `changed`: the field no longer holds the text it had when it was last focused. */
  function Edit(w: World, i: nat, text: Text, changed: bool): World
    requires i < |w.form|
  {
    var b := w.form[i];
    w.(form := w.form[i := b.(typed := text, errorOnLoad := b.errorOnLoad && !changed)], pending := Some(i))
  }

  function Flush(w: World): World {
    if w.pending.None? then w
    else
      var w1 := w.(pending := None);
      if w.pending.value < |w.form| && ValidTyped(w.form[w.pending.value]).Some? then OpenChain(w1, w.pending) else w1
  }

  function InitPage(form: seq<Box>): World {
    var seeded := SeedAll(form);
    var w := World(seeded, 0, [], {}, None);
    if Plan(seeded) != [] then OpenChain(w, None) else w
  }

  // ----- events and runs -----

  datatype Event =
    | Toggled(box: nat)
    | Edited(box: nat, text: Text, changed: bool)
    | TimerFired
    | Blurred
    | Responded(id: nat, response: Option<seq<Report>>)

  /** Users operate enabled controls only, the timer fires only while one is set, a request is answered once. */
  ghost predicate Enabled(w: World, e: Event) {
    match e
    case Toggled(i) => i < |w.form| && !w.form[i].disabled
    case Edited(i, _, _) => i < |w.form| && w.form[i].isQuantity && !w.form[i].inputDisabled
    case TimerFired => w.pending.Some?
    case Blurred => true
    case Responded(id, _) => Awaiting(w, id)
  }

  ghost function Step(w: World, e: Event): World
    requires Enabled(w, e)
  {
    match e
    case Toggled(i) => Toggle(w, i)
    case Edited(i, text, changed) => Edit(w, i, text, changed)
    case TimerFired => Flush(w)
    case Blurred => Flush(w)
    case Responded(id, response) => Respond(w, id, response)
  }

  /** `trace` is a run: consecutive worlds are related by an enabled event. */
  ghost predicate IsRun(trace: seq<World>, events: seq<Event>) {
    && |trace| == |events| + 1
    && forall k {:trigger events[k]} :: 0 <= k < |events| ==>
         Enabled(trace[k], events[k]) && trace[k + 1] == Step(trace[k], events[k])
  }
}
