/** The claim lifecycle: the list of claims in the journey state, filled by the start page and closed by the
    declaration. */
module Claims {
  import opened Common

  // ----- claim numbers -----

  function Digit(d: nat): char
    requires d < 10
  {
    ('0' as int + d) as char
  }

  function Decimal(n: nat): (s: string)
    ensures s != []
  {
    if n < 10 then [Digit(n)] else Decimal(n / 10) + [Digit(n % 10)]
  }

  function PadStart2(s: string): string {
    if |s| == 0 then "00" else if |s| == 1 then "0" + s else s
  }

  function GenerateClaimNumber(referenceNumber: string, sequence: nat): string {
    referenceNumber + "-C" + PadStart2(Decimal(sequence))
  }

  function ReadDecimal(s: string): int {
    if s == [] then 0 else 10 * ReadDecimal(s[..|s| - 1]) + (s[|s| - 1] as int - '0' as int)
  }

  lemma {:induction false} DecimalReadsBack(n: nat)
    ensures ReadDecimal(Decimal(n)) == n
  {
    if n >= 10 {
      DecimalReadsBack(n / 10);
      assert Decimal(n)[..|Decimal(n)| - 1] == Decimal(n / 10);
    }
  }

  lemma PaddingReadsBack(n: nat)
    ensures ReadDecimal(PadStart2(Decimal(n))) == n
  {
    DecimalReadsBack(n);
    var s := Decimal(n);
    if |s| == 1 {
      assert ("0" + s)[..1] == "0" && "0"[..0] == [];
    }
  }

  predicate IsDigits(s: string) {
    forall c :: c in s ==> '0' <= c <= '9'
  }

  lemma {:induction false} DecimalDigits(n: nat)
    ensures IsDigits(Decimal(n))
    ensures n < 10 ==> |Decimal(n)| == 1
    ensures 10 <= n < 100 ==> |Decimal(n)| == 2
    ensures n >= 100 ==> |Decimal(n)| >= 3
  {
    if n >= 10 {
      DecimalDigits(n / 10);
    }
  }

  /** A claim number ends in at least two digits, in exactly two below 100, and those digits read as the sequence. */
  lemma ClaimNumbersAreReadable(referenceNumber: string, sequence: nat)
    ensures exists digits :: GenerateClaimNumber(referenceNumber, sequence) == referenceNumber + "-C" + digits
              && IsDigits(digits) && ReadDecimal(digits) == sequence
              && |digits| >= 2 && (sequence < 100 <==> |digits| == 2)
  {
    DecimalDigits(sequence);
    PaddingReadsBack(sequence);
    var digits := PadStart2(Decimal(sequence));
    assert GenerateClaimNumber(referenceNumber, sequence) == referenceNumber + "-C" + digits;
  }

  /** Two digits of padding never make two sequences print alike, also past 99. */
  lemma ClaimNumbersAreDistinct(referenceNumber: string, i: nat, j: nat)
    requires GenerateClaimNumber(referenceNumber, i) == GenerateClaimNumber(referenceNumber, j)
    ensures i == j
  {
    var prefix := referenceNumber + "-C";
    assert GenerateClaimNumber(referenceNumber, i)[|prefix|..] == PadStart2(Decimal(i));
    assert GenerateClaimNumber(referenceNumber, j)[|prefix|..] == PadStart2(Decimal(j));
    PaddingReadsBack(i);
    PaddingReadsBack(j);
  }

  // ----- claims -----

  datatype ClaimStatus = InProgress | Submitted

  datatype Amounts = Amounts(totalEligibleArea: Option<real>, unit: Option<string>, totalClaimAmountPence: Option<int>)

  datatype Claim = Claim(claimNumber: string, status: ClaimStatus, amounts: Amounts, submittedAt: Option<string>)

  /** The index of the first claim not yet submitted, or the length of the list. */
  function CurrentIndex(claims: seq<Claim>): (i: nat)
    ensures i <= |claims|
    ensures i < |claims| ==> claims[i].status != Submitted
    ensures forall j :: 0 <= j < i ==> claims[j].status == Submitted
  {
    if claims == [] || claims[0].status != Submitted then 0 else 1 + CurrentIndex(claims[1..])
  }

  lemma CurrentIndexIs(claims: seq<Claim>, i: nat)
    requires i <= |claims| && (i < |claims| ==> claims[i].status != Submitted)
    requires forall j :: 0 <= j < i ==> claims[j].status == Submitted
    ensures CurrentIndex(claims) == i
  {
  }

  function GetCurrentClaim(claims: seq<Claim>): Option<Claim> {
    var i := CurrentIndex(claims);
    if i < |claims| then Some(claims[i]) else None
  }

  function GetLatestClaim(claims: seq<Claim>): Option<Claim> {
    if claims == [] then None else Some(claims[|claims| - 1])
  }

  function Upsert(claims: seq<Claim>, referenceNumber: string, amounts: Amounts): seq<Claim> {
    var i := CurrentIndex(claims);
    if i < |claims| then claims[i := claims[i].(amounts := amounts)]
    else claims + [Claim(GenerateClaimNumber(referenceNumber, |claims| + 1), InProgress, amounts, None)]
  }

  method UpsertCurrentClaim(state: seq<Claim>, referenceNumber: string, amounts: Amounts)
    returns (claims: seq<Claim>, currentClaim: Claim)
    ensures claims == Upsert(state, referenceNumber, amounts)
    ensures Some(currentClaim) == GetCurrentClaim(claims) && currentClaim.amounts == amounts
  {
    claims := state;
    var currentIndex := 0;
    while currentIndex < |claims| && claims[currentIndex].status == Submitted
      invariant 0 <= currentIndex <= |claims|
      invariant forall j :: 0 <= j < currentIndex ==> claims[j].status == Submitted
    {
      currentIndex := currentIndex + 1;
    }
    CurrentIndexIs(state, currentIndex);
    if currentIndex < |claims| {
      claims := claims[currentIndex := claims[currentIndex].(amounts := amounts)];
      currentClaim := claims[currentIndex];
    } else {
      currentClaim := Claim(GenerateClaimNumber(referenceNumber, |claims| + 1), InProgress, amounts, None);
      claims := claims + [currentClaim];
    }
    CurrentIndexIs(claims, currentIndex);
  }

  function MarkOne(claim: Claim, claimNumber: string, submittedAt: Option<string>): Claim {
    if claim.claimNumber == claimNumber then claim.(status := Submitted, submittedAt := submittedAt) else claim
  }

  function MarkClaimSubmitted(claims: seq<Claim>, claimNumber: string, submittedAt: Option<string>): (r: seq<Claim>)
    ensures |r| == |claims|
    ensures forall i :: 0 <= i < |r| ==> r[i] == MarkOne(claims[i], claimNumber, submittedAt)
  {
    seq(|claims|, i requires 0 <= i < |claims| => MarkOne(claims[i], claimNumber, submittedAt))
  }

  /** Repeated visits with the same data change nothing more. */
  lemma UpsertIsIdempotent(claims: seq<Claim>, referenceNumber: string, amounts: Amounts)
    ensures Upsert(Upsert(claims, referenceNumber, amounts), referenceNumber, amounts)
            == Upsert(claims, referenceNumber, amounts)
  {
    var once := Upsert(claims, referenceNumber, amounts);
    CurrentIndexIs(once, CurrentIndex(claims));
  }

  // ----- the journey -----

  /** `claims` is None when the state has no claims array; an empty reference number is a missing one. */
  datatype Session = Session(claims: Option<seq<Claim>>, referenceNumber: string, claimSubmitted: bool)

  function GetClaims(session: Session): seq<Claim> {
    if session.claims.Some? then session.claims.value else []
  }

  /** One call to the claims service; number and amounts are None when the state held no current claim. */
  datatype Attempt = Attempt(claimNumber: Option<string>, amounts: Option<Amounts>, accepted: bool)

  /** What happens to a posted declaration: rejected form, failed call, or an answer with a status code. */
  datatype Outcome = FormErrors | CallFailed | Answered(status: int)

  const NO_CONTENT := 204

  datatype Journey = Journey(session: Session, attempts: seq<Attempt>)

  function Visit(journey: Journey, amounts: Amounts): Journey {
    var session := journey.session;
    if session.referenceNumber == "" then journey
    else journey.(session := session.(claims := Some(Upsert(GetClaims(session), session.referenceNumber, amounts))))
  }

  function CurrentNumber(session: Session): Option<string> {
    var current := GetCurrentClaim(GetClaims(session));
    if current.Some? then Some(current.value.claimNumber) else None
  }

  function CurrentAmounts(session: Session): Option<Amounts> {
    var current := GetCurrentClaim(GetClaims(session));
    if current.Some? then Some(current.value.amounts) else None
  }

  function AfterAcceptance(session: Session, submittedAt: Option<string>): Session {
    var number, claims := CurrentNumber(session), GetClaims(session);
    var marked := if number.Some? then MarkClaimSubmitted(claims, number.value, submittedAt) else claims;
    session.(claims := Some(marked), claimSubmitted := true)
  }

  function Submit(journey: Journey, outcome: Outcome, submittedAt: Option<string>): Journey {
    var session := journey.session;
    if outcome.FormErrors? then journey
    else
      var accepted := outcome == Answered(NO_CONTENT);
      Journey(if accepted then AfterAcceptance(session, submittedAt) else session,
              journey.attempts + [Attempt(CurrentNumber(session), CurrentAmounts(session), accepted)])
  }

  /** The start and declaration pages over one cached journey state. */
  class ClaimJourney {
    var session: Session
    var attempts: seq<Attempt>

    function Now(): Journey
      reads this
    {
      Journey(session, attempts)
    }

    constructor (referenceNumber: string)
      ensures Now() == Journey(Session(None, referenceNumber, false), [])
    {
      session := Session(None, referenceNumber, false);
      attempts := [];
    }

    method PersistCurrentClaim(amounts: Amounts)
      modifies this
      ensures Now() == Visit(old(Now()), amounts)
    {
      if session.referenceNumber == "" {
        return;
      }
      var claims, _ := UpsertCurrentClaim(GetClaims(session), session.referenceNumber, amounts);
      session := session.(claims := Some(claims));
    }

    method HandleSuccessfulClaimSubmission(submittedAt: Option<string>)
      modifies this
      ensures Now() == Journey(AfterAcceptance(old(session), submittedAt), old(attempts))
    {
      var claims := GetClaims(session);
      var current := GetCurrentClaim(claims);
      if current.Some? {
        claims := MarkClaimSubmitted(claims, current.value.claimNumber, submittedAt);
      }
      session := session.(claims := Some(claims), claimSubmitted := true);
    }

    method PostDeclaration(outcome: Outcome, submittedAt: Option<string>)
      modifies this
      ensures Now() == Submit(old(Now()), outcome, submittedAt)
    {
      if outcome.FormErrors? {
        return;
      }
      var number, amounts := CurrentNumber(session), CurrentAmounts(session);
      if outcome == Answered(NO_CONTENT) {
        attempts := attempts + [Attempt(number, amounts, true)];
        HandleSuccessfulClaimSubmission(submittedAt);
      } else {
        attempts := attempts + [Attempt(number, amounts, false)];
      }
    }
  }

  // ----- runs -----

  datatype Event = Visited(amounts: Amounts) | Posted(outcome: Outcome, submittedAt: Option<string>)

  function Step(journey: Journey, e: Event): Journey {
    match e
    case Visited(amounts) => Visit(journey, amounts)
    case Posted(outcome, submittedAt) => Submit(journey, outcome, submittedAt)
  }

  /** A run from a state without claims. */
  ghost predicate IsRun(referenceNumber: string, trace: seq<Journey>, events: seq<Event>) {
    && |trace| == |events| + 1
    && trace[0] == Journey(Session(None, referenceNumber, false), [])
    && forall k {:trigger events[k]} :: 0 <= k < |events| ==> trace[k + 1] == Step(trace[k], events[k])
  }

  /** How many claims have been accepted: accepted calls that carried a claim. */
  function AcceptedCount(attempts: seq<Attempt>): nat {
    if attempts == [] then 0
    else
      var last := attempts[|attempts| - 1];
      AcceptedCount(attempts[..|attempts| - 1]) + (if last.accepted && last.claimNumber.Some? then 1 else 0)
  }

  /** Submitted claims, then at most one unsubmitted claim, numbered from 1 in order. */
  ghost predicate WellFormedClaims(referenceNumber: string, claims: seq<Claim>) {
    && CurrentIndex(claims) >= |claims| - 1
    && forall i :: 0 <= i < |claims| ==> claims[i].claimNumber == GenerateClaimNumber(referenceNumber, i + 1)
  }

  /** Each call carries the number after those accepted before it, so failures are retried under the same number. */
  ghost predicate NumberedInOrder(referenceNumber: string, attempts: seq<Attempt>) {
    forall n :: 0 <= n < |attempts| && attempts[n].claimNumber.Some? ==>
      attempts[n].claimNumber.value == GenerateClaimNumber(referenceNumber, AcceptedCount(attempts[..n]) + 1)
  }

  ghost predicate Inv(referenceNumber: string, journey: Journey) {
    && journey.session.referenceNumber == referenceNumber
    && (referenceNumber == "" ==> GetClaims(journey.session) == [])
    && WellFormedClaims(referenceNumber, GetClaims(journey.session))
    && AcceptedCount(journey.attempts) == CurrentIndex(GetClaims(journey.session))
    && NumberedInOrder(referenceNumber, journey.attempts)
  }

  lemma NumbersAreUnique(referenceNumber: string, claims: seq<Claim>, i: nat, j: nat)
    requires WellFormedClaims(referenceNumber, claims) && i < |claims| && j < |claims|
    requires claims[i].claimNumber == claims[j].claimNumber
    ensures i == j
  {
    hide GenerateClaimNumber;
    ClaimNumbersAreDistinct(referenceNumber, i + 1, j + 1);
  }

  lemma MarkingClosesCurrent(referenceNumber: string, claims: seq<Claim>, submittedAt: Option<string>)
    requires WellFormedClaims(referenceNumber, claims) && CurrentIndex(claims) < |claims|
    ensures var i := CurrentIndex(claims);
            MarkClaimSubmitted(claims, claims[i].claimNumber, submittedAt)
            == claims[i := claims[i].(status := Submitted, submittedAt := submittedAt)]
  {
    hide WellFormedClaims, CurrentIndex;
    var i := CurrentIndex(claims);
    var marked := MarkClaimSubmitted(claims, claims[i].claimNumber, submittedAt);
    forall j | 0 <= j < |claims| && j != i ensures marked[j] == claims[j] {
      if claims[j].claimNumber == claims[i].claimNumber {
        NumbersAreUnique(referenceNumber, claims, j, i);
      }
    }
  }

  lemma AcceptanceKeepsClaims(referenceNumber: string, session: Session, submittedAt: Option<string>)
    requires WellFormedClaims(referenceNumber, GetClaims(session))
    ensures var before, after := GetClaims(session), GetClaims(AfterAcceptance(session, submittedAt));
            && WellFormedClaims(referenceNumber, after) && |after| == |before|
            && CurrentIndex(after) == CurrentIndex(before) + (if CurrentNumber(session).Some? then 1 else 0)
            && forall i :: 0 <= i < CurrentIndex(before) ==> after[i] == before[i]
  {
    var before, after := GetClaims(session), GetClaims(AfterAcceptance(session, submittedAt));
    var i := CurrentIndex(before);
    if i < |before| {
      MarkingClosesCurrent(referenceNumber, before, submittedAt);
      assert after == before[i := before[i].(status := Submitted, submittedAt := submittedAt)];
      assert forall j :: 0 <= j < |after| ==> after[j].status == Submitted;
    }
  }

  lemma VisitKeepsClaims(referenceNumber: string, claims: seq<Claim>, amounts: Amounts)
    requires WellFormedClaims(referenceNumber, claims)
    ensures var after := Upsert(claims, referenceNumber, amounts);
            && WellFormedClaims(referenceNumber, after) && |after| >= |claims|
            && CurrentIndex(after) == CurrentIndex(claims) < |after|
            && forall i :: 0 <= i < CurrentIndex(claims) ==> after[i] == claims[i]
  {
    hide GenerateClaimNumber;
    var after := Upsert(claims, referenceNumber, amounts);
    CurrentIndexIs(after, CurrentIndex(claims));
  }

  lemma {:induction false} LoggedAttempt(referenceNumber: string, attempts: seq<Attempt>, attempt: Attempt)
    requires NumberedInOrder(referenceNumber, attempts)
    requires attempt.claimNumber.Some? ==>
               attempt.claimNumber.value == GenerateClaimNumber(referenceNumber, AcceptedCount(attempts) + 1)
    ensures NumberedInOrder(referenceNumber, attempts + [attempt])
    ensures AcceptedCount(attempts + [attempt])
            == AcceptedCount(attempts) + (if attempt.accepted && attempt.claimNumber.Some? then 1 else 0)
  {
    hide GenerateClaimNumber;
    var after := attempts + [attempt];
    assert after[..|attempts|] == attempts;
    forall n | 0 <= n < |after| && after[n].claimNumber.Some?
      ensures after[n].claimNumber.value == GenerateClaimNumber(referenceNumber, AcceptedCount(after[..n]) + 1)
    {
      assert after[..n] == attempts[..n];
    }
  }

  lemma StepKeepsInv(referenceNumber: string, journey: Journey, e: Event)
    requires Inv(referenceNumber, journey)
    ensures Inv(referenceNumber, Step(journey, e))
    ensures var before, after := GetClaims(journey.session), GetClaims(Step(journey, e).session);
            |before| <= |after| && forall i :: 0 <= i < CurrentIndex(before) ==> after[i] == before[i]
  {
    hide WellFormedClaims, NumberedInOrder, GenerateClaimNumber, AcceptedCount, Upsert;
    var claims := GetClaims(journey.session);
    match e
    case Visited(amounts) =>
      VisitKeepsClaims(referenceNumber, claims, amounts);
    case Posted(outcome, submittedAt) =>
      AcceptanceKeepsClaims(referenceNumber, journey.session, submittedAt);
      var number, amounts := CurrentNumber(journey.session), CurrentAmounts(journey.session);
      LoggedAttempt(referenceNumber, journey.attempts, Attempt(number, amounts, outcome == Answered(NO_CONTENT)));
  }

  lemma {:induction false} RunKeepsInv(referenceNumber: string, trace: seq<Journey>, events: seq<Event>, k: nat)
    requires IsRun(referenceNumber, trace, events) && k < |trace|
    ensures Inv(referenceNumber, trace[k])
  {
    if k > 0 {
      RunKeepsInv(referenceNumber, trace, events, k - 1);
      StepKeepsInv(referenceNumber, trace[k - 1], events[k - 1]);
    }
  }

  /** In every run the list is submitted claims followed by at most one unsubmitted claim, the i-th carries sequence i,
      and all numbers are distinct. */
  lemma ClaimListShape(referenceNumber: string, trace: seq<Journey>, events: seq<Event>, k: nat)
    requires IsRun(referenceNumber, trace, events) && k < |trace|
    ensures var claims := GetClaims(trace[k].session);
            && (forall i :: 0 <= i < |claims| - 1 ==> claims[i].status == Submitted)
            && (forall i :: 0 <= i < |claims| ==> claims[i].claimNumber == GenerateClaimNumber(referenceNumber, i + 1))
            && (forall i, j :: 0 <= i < j < |claims| ==> claims[i].claimNumber != claims[j].claimNumber)
  {
    hide GenerateClaimNumber;
    RunKeepsInv(referenceNumber, trace, events, k);
    var claims := GetClaims(trace[k].session);
    forall i, j | 0 <= i < j < |claims| ensures claims[i].claimNumber != claims[j].claimNumber {
      if claims[i].claimNumber == claims[j].claimNumber {
        NumbersAreUnique(referenceNumber, claims, i, j);
      }
    }
  }

  /** Accepted submissions carry numbers 1, 2, 3 and so on without gap or repeat, and a failed one is retried under the
      same number: every call carries the number following the claims accepted before it. */
  lemma SubmissionsAreNumberedInOrder(
    referenceNumber: string, trace: seq<Journey>, events: seq<Event>, k: nat, n: nat)
    requires IsRun(referenceNumber, trace, events) && k < |trace| && n < |trace[k].attempts|
    requires trace[k].attempts[n].claimNumber.Some?
    ensures trace[k].attempts[n].claimNumber.value
            == GenerateClaimNumber(referenceNumber, AcceptedCount(trace[k].attempts[..n]) + 1)
  {
    hide IsRun, GenerateClaimNumber, AcceptedCount, WellFormedClaims, GetClaims;
    RunKeepsInv(referenceNumber, trace, events, k);
  }

  /** A submitted claim never changes again. */
  lemma {:induction false} SubmittedClaimsAreFixed(
    referenceNumber: string, trace: seq<Journey>, events: seq<Event>, i: nat, j: nat, k: nat)
    requires IsRun(referenceNumber, trace, events) && j <= k < |trace|
    requires i < |GetClaims(trace[j].session)| && GetClaims(trace[j].session)[i].status == Submitted
    ensures i < |GetClaims(trace[k].session)| && GetClaims(trace[k].session)[i] == GetClaims(trace[j].session)[i]
    decreases k - j
  {
    hide GenerateClaimNumber, Step, NumberedInOrder, AcceptedCount;
    if j < k {
      SubmittedClaimsAreFixed(referenceNumber, trace, events, i, j, k - 1);
      RunKeepsInv(referenceNumber, trace, events, k - 1);
      StepKeepsInv(referenceNumber, trace[k - 1], events[k - 1]);
    }
  }

  /** Right after an accepted submission of a claim the latest claim, shown on confirmation, is the one just sent, it is
      submitted, and no claim is current until the next visit. */
  lemma ConfirmationShowsSentClaim(referenceNumber: string, trace: seq<Journey>, events: seq<Event>, k: nat)
    requires IsRun(referenceNumber, trace, events) && k < |events|
    requires events[k].Posted? && events[k].outcome == Answered(NO_CONTENT)
    requires CurrentNumber(trace[k].session).Some?
    ensures |trace[k + 1].attempts| > 0
    ensures var sent := trace[k + 1].attempts[|trace[k + 1].attempts| - 1];
            var latest := GetLatestClaim(GetClaims(trace[k + 1].session));
            && latest.Some? && Some(latest.value.claimNumber) == sent.claimNumber
            && latest.value.status == Submitted && latest.value.submittedAt == events[k].submittedAt
            && CurrentNumber(trace[k + 1].session).None?
  {
    RunKeepsInv(referenceNumber, trace, events, k);
    AcceptanceKeepsClaims(referenceNumber, trace[k].session, events[k].submittedAt);
    MarkingClosesCurrent(referenceNumber, GetClaims(trace[k].session), events[k].submittedAt);
  }

  /** The amounts of the latest visit to the start page. */
  function LastVisited(events: seq<Event>): Option<Amounts> {
    if events == [] then None
    else
      var last := events[|events| - 1];
      if last.Visited? then Some(last.amounts) else LastVisited(events[..|events| - 1])
  }

  lemma StepKeepsAmounts(referenceNumber: string, journey: Journey, e: Event)
    requires Inv(referenceNumber, journey)
    ensures var after := CurrentAmounts(Step(journey, e).session);
            after.Some? ==> after == if e.Visited? then Some(e.amounts) else CurrentAmounts(journey.session)
  {
    hide GenerateClaimNumber, NumberedInOrder;
    match e
    case Visited(amounts) =>
      VisitKeepsClaims(referenceNumber, GetClaims(journey.session), amounts);
    case Posted(_, submittedAt) =>
      AcceptanceKeepsClaims(referenceNumber, journey.session, submittedAt);
  }

  lemma {:induction false} CurrentAmountsAreLastVisited(
    referenceNumber: string, trace: seq<Journey>, events: seq<Event>, k: nat)
    requires IsRun(referenceNumber, trace, events) && k < |trace|
    ensures CurrentAmounts(trace[k].session).Some? ==> CurrentAmounts(trace[k].session) == LastVisited(events[..k])
  {
    hide Inv, Step, CurrentAmounts;
    if k > 0 {
      CurrentAmountsAreLastVisited(referenceNumber, trace, events, k - 1);
      RunKeepsInv(referenceNumber, trace, events, k - 1);
      StepKeepsAmounts(referenceNumber, trace[k - 1], events[k - 1]);
      assert events[..k][..k - 1] == events[..k - 1];
    } else {
      NothingCurrentAtStart(referenceNumber);
    }
  }

  lemma NothingCurrentAtStart(referenceNumber: string)
    ensures CurrentAmounts(Session(None, referenceNumber, false)).None?
  {
  }

  /** A call that carries a claim carries the amounts fetched by the latest visit. */
  lemma SubmissionSendsLatestAmounts(referenceNumber: string, trace: seq<Journey>, events: seq<Event>, k: nat)
    requires IsRun(referenceNumber, trace, events) && k < |events|
    requires events[k].Posted? && !events[k].outcome.FormErrors? && CurrentNumber(trace[k].session).Some?
    ensures |trace[k + 1].attempts| == |trace[k].attempts| + 1
    ensures var sent := trace[k + 1].attempts[|trace[k].attempts|];
            && sent.claimNumber == CurrentNumber(trace[k].session)
            && sent.amounts.Some? && sent.amounts == LastVisited(events[..k])
  {
    CurrentAmountsAreLastVisited(referenceNumber, trace, events, k);
  }

  /** Posts with a valid form among the events. */
  function ValidPosts(events: seq<Event>): nat {
    if events == [] then 0
    else
      var last := events[|events| - 1];
      ValidPosts(events[..|events| - 1]) + (if last.Posted? && !last.outcome.FormErrors? then 1 else 0)
  }

  /** Every post of a valid form makes exactly one call, and nothing else does. */
  lemma {:induction false} CallsAreValidPosts(
    referenceNumber: string, trace: seq<Journey>, events: seq<Event>, k: nat)
    requires IsRun(referenceNumber, trace, events) && k < |trace|
    ensures |trace[k].attempts| == ValidPosts(events[..k])
  {
    hide Upsert, AfterAcceptance, CurrentNumber, CurrentAmounts;
    if k > 0 {
      CallsAreValidPosts(referenceNumber, trace, events, k - 1);
      assert trace[k] == Step(trace[k - 1], events[k - 1]);
      assert events[..k][..k - 1] == events[..k - 1];
    }
  }

  /** While posts are rejected, fail or are answered otherwise than with 204, the state stays as it is and every call
      repeats the same claim number and amounts. */
  lemma {:induction false} RetriesRepeatTheCall(
    referenceNumber: string, trace: seq<Journey>, events: seq<Event>, j: nat, k: nat)
    requires IsRun(referenceNumber, trace, events) && j <= k < |trace|
    requires forall n :: j <= n < k ==> events[n].Posted? && events[n].outcome != Answered(204)
    ensures trace[k].session == trace[j].session && |trace[j].attempts| <= |trace[k].attempts|
    ensures forall n :: |trace[j].attempts| <= n < |trace[k].attempts| ==>
              trace[k].attempts[n] == Attempt(CurrentNumber(trace[j].session), CurrentAmounts(trace[j].session), false)
    decreases k - j
  {
    hide Upsert, AfterAcceptance, CurrentNumber, CurrentAmounts;
    if j < k {
      RetriesRepeatTheCall(referenceNumber, trace, events, j, k - 1);
      assert trace[k] == Step(trace[k - 1], events[k - 1]);
    }
  }

  /** The application counts as claimed exactly from the first accepted answer on. */
  lemma {:induction false} ClaimedAfterAcceptance(
    referenceNumber: string, trace: seq<Journey>, events: seq<Event>, k: nat)
    requires IsRun(referenceNumber, trace, events) && k < |trace|
    ensures trace[k].session.claimSubmitted
            <==> exists n :: 0 <= n < k && events[n].Posted? && events[n].outcome == Answered(204)
  {
    hide Upsert, MarkClaimSubmitted, GetClaims;
    if k > 0 {
      ClaimedAfterAcceptance(referenceNumber, trace, events, k - 1);
      assert trace[k] == Step(trace[k - 1], events[k - 1]);
    }
  }

  /** No claim of the list carries a submission date before it is submitted. */
  ghost predicate OpenClaimsAreUndated(claims: seq<Claim>) {
    forall i :: 0 <= i < |claims| && claims[i].status == InProgress ==> claims[i].submittedAt.None?
  }

  lemma StepKeepsUndated(journey: Journey, e: Event)
    requires OpenClaimsAreUndated(GetClaims(journey.session))
    ensures OpenClaimsAreUndated(GetClaims(Step(journey, e).session))
  {
    hide GenerateClaimNumber;
  }

  /** In every run a claim has a submission date only once it is submitted. */
  lemma {:induction false} OnlySubmittedClaimsAreDated(
    referenceNumber: string, trace: seq<Journey>, events: seq<Event>, k: nat)
    requires IsRun(referenceNumber, trace, events) && k < |trace|
    ensures OpenClaimsAreUndated(GetClaims(trace[k].session))
  {
    hide Step, OpenClaimsAreUndated;
    if k == 0 {
      NoClaimsAreUndated();
    } else {
      OnlySubmittedClaimsAreDated(referenceNumber, trace, events, k - 1);
      assert trace[k] == Step(trace[k - 1], events[k - 1]);
      StepKeepsUndated(trace[k - 1], events[k - 1]);
    }
  }

  lemma NoClaimsAreUndated()
    ensures OpenClaimsAreUndated([])
  {
  }
}
