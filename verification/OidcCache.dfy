/** The single-flight cache of the OpenID Connect configuration, with its retrying fetch. */
module OidcCache {
  import opened Common

  const MAX_ATTEMPTS: nat := 3

  /** A promise of the configuration.  `creatorDone`: the caller that created it has resumed after it settled. */
  datatype Promise = Promise(attempts: nat, outcome: Outcome, creatorDone: bool)

  datatype Outcome = Pending | Fulfilled | Rejected

  /** `slot` is oidcConfigPromise: the index of a promise, or None for null. */
  datatype Cache = Cache(promises: seq<Promise>, slot: Option<nat>)

  function Update(c: Cache, p: nat, promise: Promise): Cache
    requires p < |c.promises|
  {
    c.(promises := c.promises[p := promise])
  }

  /** A caller gets the promise in the slot, or starts a fetch and puts its promise there. */
  function Call(c: Cache): Cache {
    if c.slot.Some? then c else Cache(c.promises + [Promise(0, Pending, false)], Some(|c.promises|))
  }

  /** One pass of the attempt loop of a pending fetch. */
  function Attempt(c: Cache, p: nat, succeeds: bool): Cache
    requires p < |c.promises| && c.promises[p].outcome == Pending && c.promises[p].attempts < MAX_ATTEMPTS
  {
    var made := c.promises[p].attempts + 1;
    var outcome := if succeeds then Fulfilled else if made == MAX_ATTEMPTS then Rejected else Pending;
    Update(c, p, c.promises[p].(attempts := made, outcome := outcome))
  }

  /** The fetch fails before its first attempt: reading the well-known URL from the configuration throws. */
  function LookupThrows(c: Cache, p: nat): Cache
    requires p < |c.promises|
  {
    Update(c, p, c.promises[p].(outcome := Rejected))
  }

  /** The creator of a settled promise resumes; after a failure it clears the slot, whatever the slot holds. */
  function CreatorResumes(c: Cache, p: nat): Cache
    requires p < |c.promises|
  {
    var c1 := Update(c, p, c.promises[p].(creatorDone := true));
    if c.promises[p].outcome == Rejected then c1.(slot := None) else c1
  }

  /** The module variable and the loop of the fetch. */
  class OidcModule {
    var promises: seq<Promise>
    var slot: Option<nat>

    function Now(): Cache
      reads this
    {
      Cache(promises, slot)
    }

    constructor ()
      ensures Now() == Cache([], None)
    {
      promises, slot := [], None;
    }

    method GetOidcConfig() returns (promise: nat)
      modifies this
      ensures Now() == Call(old(Now())) && Some(promise) == slot
    {
      if slot.None? {
        promises := promises + [Promise(0, Pending, false)];
        slot := Some(|promises| - 1);
      }
      promise := slot.value;
    }

    method AfterAwait(promise: nat)
      requires promise < |promises|
      modifies this
      ensures Now() == CreatorResumes(old(Now()), promise)
    {
      promises := promises[promise := promises[promise].(creatorDone := true)];
      if promises[promise].outcome == Rejected {
        slot := None;
      }
    }
  }

  /** How a fetch against a script of attempt outcomes ends: at the first success, after at most three attempts, and
      with a failure only if all three failed. */
  ghost predicate FetchEnds(script: nat -> bool, ok: bool, made: nat) {
    && 1 <= made <= MAX_ATTEMPTS
    && (forall i: nat :: 1 <= i < made ==> !script(i))
    && ok == script(made) && (!ok ==> made == MAX_ATTEMPTS)
  }

  method FetchOidcConfig(script: nat -> bool) returns (ok: bool, made: nat)
    ensures FetchEnds(script, ok, made)
  {
    made := 1;
    while made <= MAX_ATTEMPTS
      invariant 1 <= made <= MAX_ATTEMPTS + 1
      invariant forall i: nat :: 1 <= i < made ==> !script(i)
    {
      if script(made) {
        return true, made;
      }
      made := made + 1;
    }
    ok, made := false, MAX_ATTEMPTS;
  }

  /** The passes of one fetch, one after another. */
  function Drive(c: Cache, p: nat, script: nat -> bool): Cache
    requires p < |c.promises| && c.promises[p].outcome == Pending && c.promises[p].attempts < MAX_ATTEMPTS
    decreases MAX_ATTEMPTS - c.promises[p].attempts
  {
    var c1 := Attempt(c, p, script(c.promises[p].attempts + 1));
    if c1.promises[p].outcome == Pending then Drive(c1, p, script) else c1
  }

  /** The passes settle the promise as the loop ends. */
  lemma {:induction false} PassesFollowLoop(c: Cache, p: nat, script: nat -> bool, ok: bool, made: nat)
    requires p < |c.promises| && c.promises[p].outcome == Pending && c.promises[p].attempts < made
    requires FetchEnds(script, ok, made)
    ensures Drive(c, p, script)
            == Update(c, p, c.promises[p].(attempts := made, outcome := if ok then Fulfilled else Rejected))
    decreases MAX_ATTEMPTS - c.promises[p].attempts
  {
    var c1 := Attempt(c, p, script(c.promises[p].attempts + 1));
    if c1.promises[p].outcome == Pending {
      PassesFollowLoop(c1, p, script, ok, made);
    }
  }

  // ----- runs -----

  datatype Event = Called | Attempted(p: nat, succeeds: bool) | LookupFailed(p: nat) | Resumed(p: nat)

  ghost predicate Enabled(c: Cache, e: Event) {
    match e
    case Called => true
    case Attempted(p, _) =>
      p < |c.promises| && c.promises[p].outcome == Pending && c.promises[p].attempts < MAX_ATTEMPTS
    case LookupFailed(p) => p < |c.promises| && c.promises[p].outcome == Pending && c.promises[p].attempts == 0
    case Resumed(p) => p < |c.promises| && c.promises[p].outcome != Pending && !c.promises[p].creatorDone
  }

  function Step(c: Cache, e: Event): Cache
    requires Enabled(c, e)
  {
    match e
    case Called => Call(c)
    case Attempted(p, succeeds) => Attempt(c, p, succeeds)
    case LookupFailed(p) => LookupThrows(c, p)
    case Resumed(p) => CreatorResumes(c, p)
  }

  ghost predicate IsRun(trace: seq<Cache>, events: seq<Event>) {
    && |trace| == |events| + 1 && trace[0] == Cache([], None)
    && forall k {:trigger events[k]} :: 0 <= k < |events| ==>
         Enabled(trace[k], events[k]) && trace[k + 1] == Step(trace[k], events[k])
  }

  /** A fetch succeeds after one to three attempts, and fails without any (reading the configuration throws) or after
      three. */
  predicate EndsWithReason(promise: Promise) {
    && (promise.outcome == Fulfilled ==> 1 <= promise.attempts <= 3)
    && (promise.outcome == Rejected ==> promise.attempts == 0 || promise.attempts == 3)
  }

  /** The slot holds the newest promise until its creator clears it after a failure; all older promises failed and their
      creators are done. */
  ghost predicate Inv(c: Cache) {
    && (c.slot.Some? ==> c.promises != [] && c.slot.value == |c.promises| - 1)
    && (forall p :: 0 <= p < |c.promises| && Some(p) != c.slot ==>
          c.promises[p].outcome == Rejected && c.promises[p].creatorDone)
    && (c.slot.Some? && c.promises[c.slot.value].creatorDone ==> c.promises[c.slot.value].outcome == Fulfilled)
    && (forall p :: 0 <= p < |c.promises| ==>
          c.promises[p].attempts <= MAX_ATTEMPTS
          && EndsWithReason(c.promises[p])
          && (c.promises[p].outcome == Pending ==> c.promises[p].attempts < MAX_ATTEMPTS && !c.promises[p].creatorDone))
  }

  lemma StepKeepsInv(c: Cache, e: Event)
    requires Inv(c) && Enabled(c, e)
    ensures Inv(Step(c, e)) && |Step(c, e).promises| >= |c.promises|
    ensures forall p :: 0 <= p < |c.promises| && c.promises[p].outcome == Fulfilled ==>
              Step(c, e).promises[p].outcome == Fulfilled && |Step(c, e).promises| == |c.promises|
  {
  }

  lemma {:induction false} RunKeepsInv(trace: seq<Cache>, events: seq<Event>, k: nat)
    requires IsRun(trace, events) && k < |trace|
    ensures Inv(trace[k])
  {
    if k > 0 {
      RunKeepsInv(trace, events, k - 1);
      StepKeepsInv(trace[k - 1], events[k - 1]);
    }
  }

  predicate InFlight(c: Cache, p: nat) {
    p < |c.promises| && c.promises[p].outcome == Pending
  }

  /** At most one fetch is in flight, and each makes at most three attempts. */
  lemma SingleFlight(trace: seq<Cache>, events: seq<Event>, k: nat)
    requires IsRun(trace, events) && k < |trace|
    ensures forall p :: 0 <= p < |trace[k].promises| ==>
              trace[k].promises[p].attempts <= 3 && EndsWithReason(trace[k].promises[p])
    ensures forall p: nat, q: nat :: InFlight(trace[k], p) && InFlight(trace[k], q) ==> p == q
    ensures forall p: nat :: InFlight(trace[k], p) ==> trace[k].slot == Some(p)
  {
    RunKeepsInv(trace, events, k);
  }

  /** Once a fetch has succeeded no fetch ever starts again and every caller gets that one. */
  lemma {:induction false} SuccessIsForever(trace: seq<Cache>, events: seq<Event>, p: nat, j: nat, k: nat)
    requires IsRun(trace, events) && j <= k < |trace|
    requires p < |trace[j].promises| && trace[j].promises[p].outcome == Fulfilled
    ensures |trace[k].promises| == |trace[j].promises| && trace[k].promises[p].outcome == Fulfilled
    ensures trace[k].slot == Some(p)
    decreases k - j
  {
    if j < k {
      SuccessIsForever(trace, events, p, j, k - 1);
      RunKeepsInv(trace, events, k - 1);
      StepKeepsInv(trace[k - 1], events[k - 1]);
    }
    RunKeepsInv(trace, events, k);
  }

  /** A slot changes from a promise only when the creator of that very promise clears it after its failure; so clearing
      never loses a newer promise, although the code does not compare. */
  lemma OnlyCreatorClearsItsSlot(trace: seq<Cache>, events: seq<Event>, k: nat)
    requires IsRun(trace, events) && k < |events|
    requires trace[k].slot.Some? && trace[k + 1].slot != trace[k].slot
    ensures events[k] == Resumed(trace[k].slot.value) && trace[k + 1].slot == None
    ensures trace[k].slot.value < |trace[k].promises| && trace[k].promises[trace[k].slot.value].outcome == Rejected
  {
    RunKeepsInv(trace, events, k);
  }

  /** A failure is not cached: once the creator of a failed promise has resumed, the next call starts a new fetch. */
  lemma FailureIsRetried(trace: seq<Cache>, events: seq<Event>, k: nat, p: nat)
    requires IsRun(trace, events) && k < |events| && events[k] == Resumed(p)
    requires trace[k].promises[p].outcome == Rejected
    ensures trace[k].slot == Some(p) && trace[k + 1].slot == None
    ensures |Call(trace[k + 1]).promises| == |trace[k].promises| + 1
  {
    RunKeepsInv(trace, events, k);
  }
}
