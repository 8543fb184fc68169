# grants-ui: a Dafny model of its stateful cores

The project models the parts of DEFRA's grants-ui that keep state or must agree with each other, and proves what they
promise. `dafny verify dfyconfig.toml` checks everything.

| file | what it models |
|---|---|
| `RefreshModel.dfy` | the live availability refresher of the select-actions page, on values: checkboxes, plans, responses, requests |
| `RefreshPage.dfy` | the same page as the script has it: checkbox objects whose properties are overwritten, loops over all of them, handlers; every method is proved equal to its function in `RefreshModel` |
| `RefreshRuns.dfy` | the invariant of every run of user events, timers and responses in any order |
| `RefreshProtocol.dfy` | newest request only, bounded chains, no action left stuck, valid and protected claims |
| `RefreshControls.dfy` | what a tick, an edit or a blur sends, and what an abandoned edit falls back to |
| `RefreshEdits.dfy` | what becomes of an edit until its debounce is consumed |
| `RefreshOutcomes.dfy` | where confirmed quantities come from, what a request disables, what a response leaves alone |
| `RefreshChain.dfy` | a growth chain never over-claims |
| `RefreshChainRuns.dfy` | the same for every chain of a run of the page, with the agreement with the server |
| `RefreshServer.dfy` | the plan the server rebuilds from the post, the sent-claim overlay, the stored values, and their agreement with the page |
| `TaskList.dfy` | sections, statuses, links and completion counter in both display modes |
| `TaskListDisplay.dfy` | what is shown of a page: its address, its section's title, the two numbers of the counter |
| `Claims.dfy` | the claim list between the start page and the declaration |
| `JourneyRunner.dfy`, `JourneyWalk.dfy` | the resumable journey runner under arbitrary page loads, and on the pages it was written for |
| `OidcCache.dfy` | the single-flight OpenID configuration cache |
| `Retry.dfy` | the generic retry loop and its back-off |
| `StateInvalidation.dfy` | order-insensitive change detection by sorting |
| `Escaping.dfy` | HTML and GraphQL escaping by successive replacements, and their decoders |
| `Relationships.dfy`, `Strings.dfy` | the colon-tolerant relationship parser, over split and join |

How the page is read: an input's text is `Blank`, `NotANumber` or `Amount`, that is what `Number()` makes of it; areas
are exact reals. A run is a sequence of events (tick, edit, timer, blur, response or failure of any outstanding request).
Whether an edited field differs from its text at focus is a free boolean of the edit event. Users operate enabled
controls only. The assumptions of the growth chain and of the agreement with the server are spelled out in `SoundForm`
and `SoundResponse`: units and readable areas present, nothing negative, no action redisplayed with an error. They are
needed of the rendered form and of the answers only (`SoundRun`); every form of the run then meets them. Uniqueness of
action codes and the freshly rendered form are assumptions of `PageRun`.

Where the code falls short of the plain promise the model keeps the code and the condition is exact:

- a response that does not cover an action leaves it disabled without a message (`RefreshProtocol.SettledResponseReleases`
  says exactly when; input: `RefreshProtocol.UnlistedActionStaysDisabled`);
- a checked non-quantity action that is not recomputed on submission is stored with the area it was rendered with instead
  of what the page held (`RefreshServer.StoredIsHeld`; input: `RefreshServer.FailedRecomputeStoresRenderedArea`);
- `hasChanged` reports a change between two arrangements of distinct strings that compare as equal
  (`StateInvalidation.PermutationsAreDetectedExactlyWhen`; input: `StateInvalidation.SwappedTiesCountAsChange`);
- an edit out of range can lead to a request, for the quantity a refresh put back in its place
  (`RefreshEdits.EditOutOfRangeIsSentExactlyWhen`; input: `RefreshEdits.InvalidEditMayBeSent`);
- a form posted while a chain is live loses the claims of the disabled actions
  (`RefreshServer.ServerPlanAgreesExactlyWhen`; input: `RefreshServer.LivePostDropsOthers`);
- with questions hidden the task list does not look at exit pages and still links the section after a triggered exit
  (`TaskList.ModesAgreeExactlyWithoutExit`; input: `TaskList.ExitIsIgnoredWithQuestionsHidden`);
- the GraphQL escape passes control characters through, which no GraphQL document may contain
  (`Escaping.GraphQLRoundTrip`; input: `Escaping.ControlCharacterIsNotAllowed`);
- `retry` may throw although the last call returned a response (`Retry.OutcomesPassExactlyWhen`; input:
  `Retry.ResponseMayBeReplaced`);
- the relationship parser recovers its fields exactly when at most the organisation name has colons
  (`Relationships.ParserUndoesPrinter`; input: `Relationships.ColonOutsideNameIsLost`);
- a task page whose fields are all optional is never complete, so the form never is
  (`TaskList.PageWithoutRequiredFieldsNeverCompletes`; input: `TaskList.OptionalAnswerDoesNotComplete`);
- an exit page is seen exactly when it belongs to a task page (`TaskList.ExitsAreSeenExactlyWhenOwned`; input:
  `TaskList.ExitBehindExcludedPageIsUnseen`);
- the journey runner's "section complete" message is unreachable (`JourneyRunner.SectionCompleteIsNeverReported`).

## Model

| member | source | states |
|---|---|---|
| `RefreshPage.Checkbox.SetDisabled` | src/client/javascripts/land-grants/select-actions-page.js:121-125 | disables the checkbox together with its quantity input and touches nothing else |
| `RefreshPage.Checkbox.WipeChosenArea` | src/client/javascripts/land-grants/select-actions-page.js:185-194 | removes the confirmed quantity, or zeroes the hidden area |
| `RefreshPage.Checkbox.SetUnavailable` | src/client/javascripts/land-grants/select-actions-page.js:317-327 | unchecks, disables, clears typed value and claim, shows the message |
| `RefreshPage.Checkbox.SetAvailable` | src/client/javascripts/land-grants/select-actions-page.js:367-374 | enables checkbox and input and removes the message |
| `RefreshPage.Checkbox.RevertUnconfirmed` | src/client/javascripts/land-grants/select-actions-page.js:236-249 | an unprotected checked quantity action without a valid value falls back to its confirmed one or is unchecked |
| `RefreshPage.Checkbox.SeedConfirmed` | src/client/javascripts/land-grants/select-actions-page.js:629-638 | a valid server-rendered quantity becomes the confirmed one |
| `RefreshPage.Checkbox.ApplyUncheckedAvailability` | src/client/javascripts/land-grants/select-actions-page.js:382-392 | unavailable at area zero or below the typed claim, otherwise available |
| `RefreshPage.Checkbox.ApplyCheckedQuantityAvailability` | src/client/javascripts/land-grants/select-actions-page.js:399-404 | records what was sent as confirmed and enables |
| `RefreshPage.Checkbox.ApplyCheckedNonQuantityAvailability` | src/client/javascripts/land-grants/select-actions-page.js:422-432 | grows by the headroom if allowed, keeps the sent claim otherwise, becomes unavailable at zero; reports growth |
| `RefreshPage.Checkbox.ApplyAvailability` | src/client/javascripts/land-grants/select-actions-page.js:447-479 | records unit and live area, then dispatches on checked, protected and kind |
| `RefreshPage.Checkbox.FlipByUser` | src/client/javascripts/land-grants/select-actions-page.js:651-660 | a tick or untick ends protection; an untick clears typed value and claim |
| `RefreshPage.SelectActionsPage.constructor` | src/client/javascripts/land-grants/select-actions-page.js:758-780 | seeds confirmed quantities and asks once if anything is claimed |
| `RefreshPage.SelectActionsPage.SeedConfirmedQuantities` | src/client/javascripts/land-grants/select-actions-page.js:628-639 | the seeding loop seeds every checkbox |
| `RefreshPage.SelectActionsPage.UncheckUnconfirmedQuantityActions` | src/client/javascripts/land-grants/select-actions-page.js:234-251 | the confirming loop confirms every checkbox |
| `RefreshPage.SelectActionsPage.DisableOtherActions` | src/client/javascripts/land-grants/select-actions-page.js:116-127 | the loop disables every checkbox but the trigger and the protected ones |
| `RefreshPage.SelectActionsPage.RecoverFromFailedRefresh` | src/client/javascripts/land-grants/select-actions-page.js:514-520 | the loop enables every unprotected checkbox |
| `RefreshPage.SelectActionsPage.BuildPlannedActions` | src/client/javascripts/land-grants/select-actions-page.js:258-282 | the loop collects the claims of the checked actions in form order |
| `RefreshPage.SelectActionsPage.ApplyRefreshResponse` | src/client/javascripts/land-grants/select-actions-page.js:535-554 | the flag-driven loop equals the declarative form where only the first offered action may grow |
| `RefreshPage.SelectActionsPage.RefreshAvailability` | src/client/javascripts/land-grants/select-actions-page.js:573-590 | confirms, takes the next id, disables others at a chain start, plans and sends |
| `RefreshPage.SelectActionsPage.OnResponse` | src/client/javascripts/land-grants/select-actions-page.js:591-618 | stale responses are dropped, failures recover, growth starts a follow-up while any is left |
| `RefreshPage.SelectActionsPage.OnChange` | src/client/javascripts/land-grants/select-actions-page.js:645-666 | the change handler, which asks unless a ticked quantity action has no valid value yet |
| `RefreshPage.SelectActionsPage.OnInput` | src/client/javascripts/land-grants/select-actions-page.js:724-739 | an edit replaces the pending debounce and ends protection if the text changed |
| `RefreshPage.SelectActionsPage.FlushPending` | src/client/javascripts/land-grants/select-actions-page.js:703-713 | the debounce is consumed and a valid value is sent |
| `RefreshRuns.PlanSendsClaims` | src/client/javascripts/land-grants/select-actions-page.js:269-282 | looked up by code, a plan claims for each action exactly what its checkbox claims |
| `RefreshRuns.PlanEntries` | src/client/javascripts/land-grants/select-actions-page.js:258-282 | a plan lists exactly the checked actions with a claim and a unit, each with that claim and unit |
| `RefreshRuns.StepKeepsInv` | src/client/javascripts/land-grants/select-actions-page.js:566-755 | every event keeps the whole invariant of form, requests and debounce |
| `RefreshRuns.RunKeepsInv` | src/client/javascripts/land-grants/select-actions-page.js:758-780 | the invariant holds in every state of every run of the page |
| `RefreshProtocol.StaleResponseIsInert` | src/client/javascripts/land-grants/select-actions-page.js:594-598 | a superseded response changes nothing but having arrived |
| `RefreshProtocol.OnlyNewestResponseChangesForm` | src/client/javascripts/land-grants/select-actions-page.js:594-598 | in any run a response that changes the form or sends a request answers the newest request |
| `RefreshProtocol.SupersededChainIsSilent` | src/client/javascripts/land-grants/select-actions-page.js:594-618 | once a later chain has opened, the older one never sends again and its responses change nothing |
| `RefreshProtocol.ChainsAreBounded` | src/client/javascripts/land-grants/select-actions-page.js:559-618 | no trigger issues more than one request and three follow-ups |
| `RefreshProtocol.SettlesAtFixpoint` | src/client/javascripts/land-grants/select-actions-page.js:608-618 | a chain settles if and only if no follow-up is left or nothing was offered to a checked unprotected non-quantity action |
| `RefreshProtocol.SettledResponseReleases` | src/client/javascripts/land-grants/select-actions-page.js:447-554 | after a chain settles on a response an action is released if and only if the response covers it or it was released before |
| `RefreshProtocol.UnlistedActionStaysDisabled` | src/client/javascripts/land-grants/select-actions-page.js:538-542 | an action the response does not list stays disabled without a message |
| `RefreshProtocol.FailureReleasesAll` | src/client/javascripts/land-grants/select-actions-page.js:600-606 | a failed newest request leaves every action enabled and without message, and nothing else changed |
| `RefreshProtocol.NothingIsLeftStuck` | src/client/javascripts/land-grants/select-actions-page.js:116-127 | in every run with covering responses, whenever nothing is outstanding an action is disabled exactly when it shows the message |
| `RefreshProtocol.MessageMeansReleasedClaim` | src/client/javascripts/land-grants/select-actions-page.js:317-327 | in every reachable state the message implies unchecked, disabled, nothing typed, nothing held, nothing planned |
| `RefreshProtocol.RecordedClaimsAreValid` | src/client/javascripts/land-grants/select-actions-page.js:160-168 | in every run each recorded or sent quantity of a quantity action lies in (0, total] |
| `RefreshProtocol.ConfirmingSettles` | src/client/javascripts/land-grants/select-actions-page.js:234-251 | after confirming, every checked unprotected quantity action holds a valid value, and confirming again changes nothing |
| `RefreshProtocol.ProtectedUntilTouched` | src/client/javascripts/land-grants/select-actions-page.js:54-74 | an action redisplayed with an error keeps checked state, typed value and claim through any run that does not touch it |
| `RefreshProtocol.IssuedRequestDisablesOthers` | src/client/javascripts/land-grants/select-actions-page.js:583-616 | whenever a triggered request or its follow-up goes out, every other action is disabled or protected |
| `RefreshProtocol.OthersWaitWhileLive` | src/client/javascripts/land-grants/select-actions-page.js:578-586 | an untouched action does not change while the same request stays newest and unanswered |
| `RefreshProtocol.UntickingReleasesClaim` | src/client/javascripts/land-grants/select-actions-page.js:653-660 | unticking sends a plan without the action, and ticking it again claims afresh |
| `RefreshProtocol.EnabledActionFits` | src/client/javascripts/land-grants/select-actions-page.js:376-392 | an unchecked listed action ends up enabled, with its text, exactly when no area or one that can hold its claim is reported, and otherwise with the message |
| `RefreshControls.RefreshedPlan` | src/client/javascripts/land-grants/select-actions-page.js:573-590 | the plan of a request, first or follow-up, claims for each action what its confirmed checkbox claims |
| `RefreshEdits.FlushSendsExactlyInRange` | src/client/javascripts/land-grants/select-actions-page.js:703-713 | a consumed debounce sends a request exactly if the field's text is then in (0, total], and claims that |
| `RefreshEdits.EditInRangeIsSent` | src/client/javascripts/land-grants/select-actions-page.js:703-739 | an edit in range on a checked action is sent as typed, whatever responses and other ticks come before its debounce is consumed |
| `RefreshEdits.EditOutOfRangeIsSentExactlyWhen` | src/client/javascripts/land-grants/select-actions-page.js:234-251 | an edit out of range leads to a request exactly if another request put back the confirmed quantity since, and that quantity is what is claimed |
| `RefreshEdits.InvalidEditMayBeSent` | src/client/javascripts/land-grants/select-actions-page.js:703-713 | a run in which 99 is typed into a field of total 2 and the debounce sends the confirmed quantity |
| `RefreshControls.ProtectedExactlyUntilTouched` | src/client/javascripts/land-grants/select-actions-page.js:640-739 | in every run an action is protected exactly if it was rendered protected and its user has neither flipped it nor changed its text |
| `RefreshControls.InvalidTextFallsBack` | src/client/javascripts/land-grants/select-actions-page.js:234-251 | any request, first or follow-up, puts back and claims the confirmed quantity of a checked action without valid text, or unchecks and empties the action |
| `RefreshControls.ResponseConfirmsSent` | src/client/javascripts/land-grants/select-actions-page.js:399-404 | a response confirms for a checked quantity action exactly what the request claimed |
| `RefreshControls.RenderedQuantityIsConfirmed` | src/client/javascripts/land-grants/select-actions-page.js:628-639 | on a rendered page exactly the checked quantities in range start out confirmed |
| `RefreshControls.RenderedPageAsks` | src/client/javascripts/land-grants/select-actions-page.js:758-780 | a rendered page asks at once, without a triggering action, exactly if some action claims land |
| `RefreshControls.UncheckedHoldsNothing` | src/client/javascripts/land-grants/select-actions-page.js:185-194 | in every reachable state an unchecked action holds no quantity and no area |
| `RefreshControls.TickAsksExactlyInRange` | src/client/javascripts/land-grants/select-actions-page.js:645-666 | a tick sends a request unless a quantity is missing or out of range, claiming the typed quantity or the held or live area |
| `RefreshControls.LiveAreaIsLastReported` | src/client/javascripts/land-grants/select-actions-page.js:447-462 | in every run an action's live area and unit are those last reported for it, or the rendered ones |
| `RefreshControls.TickClaimsLastReported` | src/client/javascripts/land-grants/select-actions-page.js:269-282 | in every run ticking a non-quantity action claims the area and unit last reported for it, or its rendered total |
| `RefreshOutcomes.ConfirmedIsLastAnswered` | src/client/javascripts/land-grants/select-actions-page.js:399-404 | in every run a quantity action's confirmed quantity is the claim last answered with an area while checked and unprotected, before that the rendered one, and none once unchecked; no edit, tick or timer confirms anything |
| `RefreshOutcomes.TriggerIsSpared` | src/client/javascripts/land-grants/select-actions-page.js:116-127 | a request leaves the controls of its triggering action as they were before a tick or flush, or as the response left them |
| `RefreshOutcomes.TickedStaysEnabled` | src/client/javascripts/land-grants/select-actions-page.js:116-127 | in every run a flipped action stays enabled while its own request is newest and unanswered |
| `RefreshOutcomes.ChainsKeepTheirTrigger` | src/client/javascripts/land-grants/select-actions-page.js:573-616 | in every run all requests of a chain have the same triggering action |
| `RefreshOutcomes.UncoveredIsLeftAlone` | src/client/javascripts/land-grants/select-actions-page.js:447-479 | an action a response does not cover is left exactly as it was |
| `RefreshOutcomes.SentAreaSettles` | src/client/javascripts/land-grants/select-actions-page.js:422-432 | a covered checked non-quantity action ends up with its sent claim, raised if it is the first that may grow, or unchecked, disabled and with the message if that is zero |
| `RefreshOutcomes.UnsentAreaIsUnreadable` | src/client/javascripts/land-grants/select-actions-page.js:422-432 | without a sent claim it keeps its tick and holds an unreadable area |
| `RefreshChain.ResponseMovesClaim` | src/client/javascripts/land-grants/select-actions-page.js:399-479 | a response moves one action's claim by its headroom if it may grow and leaves it otherwise |
| `RefreshChain.ResponseRaisesOneClaim` | src/client/javascripts/land-grants/select-actions-page.js:522-554 | as an allocation of land, the next plan raises the first offered claim by its headroom and no other |
| `RefreshChain.FollowUpRaisesOneClaim` | src/client/javascripts/land-grants/select-actions-page.js:608-616 | a follow-up plan equals the previous plan with exactly one claim raised, zero claims dropped |
| `RefreshChain.TriggerOpensReadyChain` | src/client/javascripts/land-grants/select-actions-page.js:573-590 | any trigger on a sound form opens a chain of this kind |
| `RefreshChain.ChainNeverOverClaims` | src/client/javascripts/land-grants/select-actions-page.js:522-618 | for any feasibility predicate and any order of responses, a feasible first plan and honest offers keep every sent plan and every state of the form feasible |
| `RefreshChain.TwoGrowthsCanOverClaim` | src/client/javascripts/land-grants/select-actions-page.js:522-554 | a ready form and an honest response for which the page's one growth is feasible and growing both actions is not |
| `RefreshChainRuns.RunKeepsSound` | src/client/javascripts/land-grants/select-actions-page.js:566-780 | a sound rendered form stays sound in every run with sound answers |
| `RefreshChainRuns.OpenedChainIsReady` | src/client/javascripts/land-grants/select-actions-page.js:573-590 | every chain opened in such a run meets the assumptions of a growth chain |
| `RefreshChainRuns.RunNeverOverClaims` | src/client/javascripts/land-grants/select-actions-page.js:522-618 | in any run, an opened chain with a feasible plan keeps every sent plan and the form feasible until the user acts again |
| `RefreshChainRuns.RunAgreesWithServer` | src/server/land-grants/controllers/select-actions-page.controller.js:37-48 | in any run, once an opened chain has settled on a covering response, the server rebuilds the page's own claims from whatever is posted before the user acts again |
| `RefreshServer.RebuiltPlanSends` | src/server/land-grants/controllers/select-actions-page.controller.js:37-48 | the rebuilt plan claims exactly the positive posted quantities of selected known codes |
| `RefreshServer.RebuiltEntries` | src/server/land-grants/controllers/select-actions-page.controller.js:37-48 | its entries are exactly those of the selected known actions with a positive quantity, each in the unit of its action |
| `RefreshServer.CoveringResponseSettles` | src/client/javascripts/land-grants/select-actions-page.js:422-479 | after a settling covering response each checked action's own field posts exactly its claim |
| `RefreshServer.PostRoundTrips` | src/server/land-grants/controllers/select-actions-page.controller.js:37-48 | the server reads back for each action whether it is checked and what it holds |
| `RefreshServer.ServerPlanAgreesExactlyWhen` | src/server/land-grants/controllers/select-actions-page.controller.js:37-48 | for any form the two plans claim the same exactly if each checkbox posts what it holds |
| `RefreshServer.ServerPlanAgrees` | src/server/land-grants/controllers/select-actions-page.controller.js:37-48 | so on a settled form the rebuilt plan and the page's own plan claim the same codes and quantities |
| `RefreshServer.LivePostDropsOthers` | src/server/land-grants/controllers/select-actions-page.controller.js:37-48 | a form posted while a chain is live loses the claim of a disabled action |
| `RefreshServer.SettledChainAgrees` | src/server/land-grants/controllers/select-actions-page.controller.js:157-161 | the agreement at the end of a growth chain, unaffected by late responses |
| `RefreshServer.OverlayKeepsClaims` | src/server/land-grants/controllers/select-actions-page.controller.js:178-188 | the overlay gives each sent non-quantity action its posted claim in the recomputed unit and leaves every other area alone |
| `RefreshServer.RecomputedAreas` | src/server/land-grants/controllers/select-actions-page.controller.js:157-191 | the areas used for storing, for any payload: recomputed with own claims overlaid, or rendered if nothing was claimed or the service failed |
| `RefreshServer.StoredExactlyWhen` | src/server/land-grants/view-state/land-parcel.view-state.js:38-183 | for any payload an action is stored exactly if selected, known and, where needed, posted with a quantity other than blank and zero |
| `RefreshServer.StoredForSettled` | src/server/land-grants/view-state/land-parcel.view-state.js:69-183 | what is stored for each action of a settled form, whether or not the recompute answered |
| `RefreshServer.StoredIsHeld` | src/server/land-grants/controllers/select-actions-page.controller.js:157-191 | it is the claim the page held, and nothing for an unchecked action, exactly unless a checked non-quantity action was not recomputed and was rendered with another area |
| `RefreshServer.FailedRecomputeStoresRenderedArea` | src/server/land-grants/controllers/select-actions-page.controller.js:171-176 | after a failed recompute an action holding one hectare of two is stored with two |
| `TaskList.CompletionMeaning` | src/server/task-list/task-list.helper.js:95-120 | a page is complete exactly when it has a required field, its condition holds and each required field has a value or a subfield; hidden exactly when it has a required field and its condition fails |
| `TaskList.AnswersAccumulate` | src/server/task-list/task-list.helper.js:95-120 | further answers never make an unconditional page incomplete |
| `TaskList.PageWithoutRequiredFieldsNeverCompletes` | src/server/task-list/task-list.helper.js:98-101 | a task page without required fields stays incomplete and keeps the form incomplete |
| `TaskList.ExitBelongsToLastSection` | src/server/task-list/task-list.helper.js:130-154 | an exit page whose condition holds is triggered by exactly the last page with a section before it |
| `TaskList.ExitsAreSeenExactlyWhenOwned` | src/server/task-list/task-list.helper.js:130-154 | some task page triggers an exit exactly when an open exit page belongs to a task page |
| `TaskList.ExitBehindExcludedPageIsUnseen` | src/server/task-list/task-list.helper.js:278-291 | behind a land-grant page an open exit page is triggered by no task page |
| `TaskList.OpenExitEndsJourney` | src/server/task-list/task-list.helper.js:208-220 | with questions shown, after an open exit page of a task page nothing incomplete is linked |
| `TaskList.OptionalAnswerDoesNotComplete` | src/server/task-list/task-list.helper.js:95-101 | an answered optional field alone leaves its page and the form incomplete |
| `TaskList.TaskPagesHaveSections` | src/server/task-list/task-list.helper.js:283-291 | the task pages are the pages with a section except exit pages and the two land-grant pages |
| `TaskList.ComputeTriggersExit` | src/server/task-list/task-list.helper.js:130-154 | the scan finds a triggered exit page if and only if one follows before the next page with a section |
| `TaskList.GroupBySection` | src/server/task-list/task-list.helper.js:376-387 | the Map loop yields the sections in first-seen order with their pages |
| `TaskList.SectionIsSubsequence` | src/server/task-list/task-list.helper.js:376-387 | pages keep their order inside a section |
| `TaskList.SectionsFollowFirstPages` | src/server/task-list/task-list.helper.js:376-387 | sections stand in the order of their first pages |
| `TaskList.GroupingIsPartition` | src/server/task-list/task-list.helper.js:376-387 | every task page lands in exactly one section |
| `TaskList.ArePreviousTaskPagesCompleted` | src/server/task-list/task-list.helper.js:317-327 | true exactly when no earlier section has an incomplete page |
| `TaskList.GetTaskStatus` | src/server/task-list/task-list.helper.js:339-360 | the status of the section found by its id |
| `TaskList.BuildTaskListDataHideQuestions` | src/server/task-list/task-list.helper.js:370-422 | one item per section with title, status and link |
| `TaskListDisplay.CounterCountsPages` | src/server/task-list/task-list.helper.js:483-491 | completed is the number of complete task pages, total the number of those not hidden, and the form is complete exactly if they are equal |
| `TaskListDisplay.ExitFormCounter` | src/server/task-list/task-list.helper.js:483-491 | one of two pages of a form |
| `TaskListDisplay.QuestionsLinkToTheirPages` | src/server/task-list/task-list.helper.js:232-265 | every completed or next question links to its own page and any other to nothing; which is which by the completions and exits of its page and those before it |
| `TaskListDisplay.SectionsCarryTheirTitles` | src/server/task-list/task-list.helper.js:385-474 | in both modes a section shows the title given to its id |
| `TaskList.SectionStatusReason` | src/server/task-list/task-list.helper.js:339-360 | each status stands for a condition on the completions of the section's own pages and of the earlier ones |
| `TaskList.SectionStatusShape` | src/server/task-list/task-list.helper.js:339-419 | completed sections, at most one open section, then blocked ones; links exactly up to the open section; counter complete exactly when all are completed |
| `TaskList.SectionLinkTargets` | src/server/task-list/task-list.helper.js:394-399 | a section in progress links to its last page, any other linked section to its first |
| `TaskList.AreAllPreviousTasksCompleted` | src/server/task-list/task-list.helper.js:208-220 | true exactly when every earlier page is done or hidden and triggers no exit |
| `TaskList.CreateTaskItem` | src/server/task-list/task-list.helper.js:232-265 | the item of a page by completion and by the pages before it |
| `TaskList.BuildTaskListData` | src/server/task-list/task-list.helper.js:431-474 | one task per section with the questions of its pages |
| `TaskList.QuestionsFollowPages` | src/server/task-list/task-list.helper.js:458-471 | the items of a section are exactly the questions of its pages, in page order |
| `TaskList.NextQuestionIsUnique` | src/server/task-list/task-list.helper.js:232-265 | at most one question is linked as not started, and every applicable page before it is complete |
| `TaskList.NextQuestionExists` | src/server/task-list/task-list.helper.js:208-265 | it exists exactly when the first incomplete page has no triggered exit before it |
| `TaskList.UnfinishedFormHasNextQuestion` | src/server/task-list/task-list.helper.js:232-265 | with no exit triggered and the counter incomplete there is a question to answer next |
| `TaskList.ExitBlocksLaterPages` | src/server/task-list/task-list.helper.js:214-217 | with questions shown, after a triggered exit no incomplete later page is linked |
| `TaskList.CounterAgreesWithQuestions` | src/server/task-list/task-list.helper.js:483-491 | the counter says complete exactly when every shown question is completed |
| `TaskList.OfferedSectionHoldsFirstIncomplete` | src/server/task-list/task-list.helper.js:339-360 | with questions hidden and sections not interleaved, a section is in progress or not started exactly if the first incomplete page lies in it |
| `TaskList.ModesAgreeExactlyWithoutExit` | src/server/task-list/task-list.helper.js:232-360 | a section shows the next question exactly if the other mode offers it and no page before the first incomplete one triggers an exit |
| `TaskList.ExitIsIgnoredWithQuestionsHidden` | src/server/task-list/task-list.helper.js:339-360 | a form with an open exit whose next section is linked in one mode and blocked in the other |
| `Claims.ClaimNumbersAreDistinct` | src/server/claims/services/claim-state.js:35-37 | zero-padded numbering is injective, past 99 too |
| `Claims.ClaimNumbersAreReadable` | src/server/claims/services/claim-state.js:35-37 | a claim number ends in at least two digits, exactly two below 100, which read as its sequence |
| `Claims.UpsertCurrentClaim` | src/server/claims/services/claim-state.js:78-98 | refreshes the current claim or appends a numbered one; the result is the current claim with the given amounts |
| `Claims.UpsertIsIdempotent` | src/server/claims/services/claim-state.js:69-98 | a repeated upsert with the same data changes nothing more |
| `Claims.ClaimJourney.PersistCurrentClaim` | src/server/claims/controllers/start-claim-page.controller.js:174-195 | the start page writes the upserted list to the session, or nothing without a reference number |
| `Claims.ClaimJourney.HandleSuccessfulClaimSubmission` | src/server/declaration/declaration-page.controller.js:385-410 | an accepted submission marks the current claim and the application status |
| `Claims.ClaimJourney.PostDeclaration` | src/server/declaration/declaration-page.controller.js:448-482 | the POST flow: form errors, failed call, other status, and 204 |
| `Claims.MarkingClosesCurrent` | src/server/claims/services/claim-state.js:108-112 | marking by number changes the current claim and no other |
| `Claims.ClaimListShape` | src/server/claims/services/claim-state.js:1-8 | in every run the list is submitted claims then at most one unsubmitted, numbered in order, all distinct |
| `Claims.SubmissionsAreNumberedInOrder` | src/server/declaration/declaration-page.controller.js:316-332 | every call carries the number after the claims accepted before it: no gap, no repeat, retries keep theirs |
| `Claims.SubmittedClaimsAreFixed` | src/server/claims/services/claim-state.js:108-112 | a submitted claim never changes again |
| `Claims.OnlySubmittedClaimsAreDated` | src/server/claims/services/claim-state.js:78-112 | in every run a claim carries a submission date only once it is submitted |
| `Claims.ConfirmationShowsSentClaim` | src/server/confirmation/confirmation-page.controller.js:65-70 | right after acceptance the latest claim is the one just sent, submitted, and none is current |
| `Claims.SubmissionSendsLatestAmounts` | src/server/declaration/declaration-page.controller.js:316-332 | a submitted claim carries the amounts of the latest start-page visit |
| `Claims.RetriesRepeatTheCall` | src/server/declaration/declaration-page.controller.js:448-482 | until an answer of 204 posts change nothing and every call repeats the same claim number and amounts |
| `JourneyRunner.FirstMatchIsFirst` | src/server/dev-tools/journey-runner/runner-engine.js:424-436 | the search result is the first later step of the section matching the page |
| `JourneyRunner.JourneyPage.FindCurrentStep` | src/server/dev-tools/journey-runner/runner-engine.js:424-436 | the index loop computes that search |
| `JourneyRunner.JourneyPage.ReportNoMatchingStep` | src/server/dev-tools/journey-runner/runner-engine.js:517-534 | ends the run with stuck, nothing-ran or complete |
| `JourneyRunner.JourneyPage.ProcessCurrentPage` | src/server/dev-tools/journey-runner/runner-engine.js:573-617 | one page load: no run, end of run, or one executed step recorded before its handler |
| `JourneyRunner.JourneyPage.RunJourney` | src/server/dev-tools/journey-runner/runner-engine.js:645-666 | starts a run by section or step number, refusing unknown sections |
| `JourneyRunner.RunsTerminate` | src/server/dev-tools/journey-runner/runner-engine.js:424-617 | under any pages a run's steps strictly increase, at most one each, all allowed by stop number, section and handler, all seeing the run's parcel |
| `JourneyRunner.EachLoadProgresses` | src/server/dev-tools/journey-runner/runner-engine.js:573-617 | a page load executes one more step or ends the run |
| `JourneyRunner.CompletionIsEarned` | src/server/dev-tools/journey-runner/runner-engine.js:517-666 | whenever completion is reported, by a page load or by starting a run, it is off the last step's page, no later step matches, and a section run has run a step |
| `JourneyRunner.SectionCompleteIsNeverReported` | src/server/dev-tools/journey-runner/runner-engine.js:544-550 | the section-complete stop reason never fires |
| `JourneyWalk.StepMatchesItsPage` | src/server/dev-tools/journey-runner/runner-engine.js:387-416 | a step matches its own page under any form and no other page of that depth |
| `JourneyWalk.StepMatchesItsItems` | src/server/dev-tools/journey-runner/runner-engine.js:395-416 | a repeated step matches exactly its item pages, named by 36 hexadecimal digits and hyphens |
| `JourneyWalk.LoadRunsStep` | src/server/dev-tools/journey-runner/runner-engine.js:544-617 | a page load runs a step exactly when it is the next one of the section on this page, below the stop number, with a handler, on a page without errors |
| `JourneyWalk.ExecutedAsAsked` | src/server/dev-tools/journey-runner/runner-engine.js:645-666 | in every run each executed step lies below the stop number asked for, carries the section asked for and saw the parcel asked for |
| `JourneyWalk.LoadIsExplained` | src/server/dev-tools/journey-runner/runner-engine.js:517-617 | in every run what a page load does and reports follows from what was asked for, what has been executed and the page |
| `JourneyWalk.StartIsExplained` | src/server/dev-tools/journey-runner/runner-engine.js:645-666 | so does the page on which a run is started |
| `JourneyWalk.UnknownSectionIsForgotten` | src/server/dev-tools/journey-runner/runner-engine.js:645-653 | after asking for a section no step has, every continuation runs as if it had not been asked, an active run included |
| `JourneyWalk.RemainingStepsRun` | src/server/dev-tools/journey-runner/runner-engine.js:573-617 | resumed anywhere, the pages of the remaining steps execute exactly these |
| `JourneyWalk.WholeRunCompletes` | src/server/dev-tools/journey-runner/runner-engine.js:573-666 | visiting the pages of a section's steps, or of all steps, in order executes exactly those steps with the run's parcel and then reports completion |
| `OidcCache.OidcModule.GetOidcConfig` | src/server/auth/get-oidc-config.js:35-40 | callers share the promise in the slot or start a fetch |
| `OidcCache.OidcModule.AfterAwait` | src/server/auth/get-oidc-config.js:42-48 | the creator clears the slot after a failure |
| `OidcCache.FetchOidcConfig` | src/server/auth/get-oidc-config.js:51-89 | the attempt loop ends at the first success, after at most three attempts |
| `OidcCache.PassesFollowLoop` | src/server/auth/get-oidc-config.js:57-88 | the single passes of the concurrent model settle a promise as the loop ends |
| `OidcCache.SingleFlight` | src/server/auth/get-oidc-config.js:23-49 | in any interleaving at most one fetch is in flight, it is the one in the slot, each succeeds after one to three attempts and fails after three, or with none if reading the configuration throws |
| `OidcCache.SuccessIsForever` | src/server/auth/get-oidc-config.js:35-43 | after a success no fetch starts and the slot keeps that promise |
| `OidcCache.OnlyCreatorClearsItsSlot` | src/server/auth/get-oidc-config.js:44-48 | a slot is emptied only by the creator of the promise in it, after that promise failed |
| `OidcCache.FailureIsRetried` | src/server/auth/get-oidc-config.js:44-48 | a failure is not cached |
| `Retry.RetryOperation` | src/server/common/helpers/retry.js:27-59 | between 1 and maxAttempts calls, every call but the last a retryable failure, the result that of the last call |
| `Retry.RetriesFollowFailures` | src/server/common/helpers/retry.js:27-59 | every call but the last was a failure that may be retried, and the last was not, unless the attempts are used up |
| `Retry.AccountIsUnique` | src/server/common/helpers/retry.js:27-59 | that account determines the number of calls and the result |
| `Retry.OutcomesPassExactlyWhen` | src/server/common/helpers/retry.js:31-48 | the options under which the caller gets the last call's own outcome for every script of outcomes, and no others |
| `Retry.ResponseMayBeReplaced` | src/server/common/helpers/retry.js:31-48 | options and outcomes for which a response is answered with an error |
| `Retry.ExhaustedRetriesKeepOutcome` | src/server/common/helpers/retry.js:31-48 | all attempts are used exactly when all earlier calls failed retryably, and then the last outcome is passed on |
| `Retry.DelaysAreMonotone` | src/server/common/helpers/retry.js:89-96 | exponential delays never decrease and never exceed the maximum, whatever jitter is drawn |
| `Retry.DelaysDouble` | src/server/common/helpers/retry.js:89-96 | the first delay is the initial one with jitter, and each next one twice the one before, up to the maximum |
| `Retry.DelayIsNearDoubling` | src/server/common/helpers/retry.js:89-96 | a delay lies between the doubling and one and a half times it, capped; without back-off it is constant |
| `StateInvalidation.SortSorts` | src/server/common/utils/state-invalidation.js:27-28 | the sort used for comparison sorts and permutes |
| `StateInvalidation.SortIsStable` | src/server/common/utils/state-invalidation.js:27-28 | tied strings keep their order |
| `StateInvalidation.SortedAreEqual` | src/server/common/utils/state-invalidation.js:27-29 | a sorted list is determined by the order of its tied items |
| `StateInvalidation.UnchangedMeansSameTies` | src/server/common/utils/state-invalidation.js:22-32 | for any total preorder, unchanged means every group of tied strings occurs in the same order |
| `StateInvalidation.UnchangedMeansPermuted` | src/server/common/utils/state-invalidation.js:22-32 | when no distinct strings tie, unchanged means permuted |
| `StateInvalidation.ChangeIsSymmetric` | src/server/common/utils/state-invalidation.js:22-32 | only NaN differs from itself, argument order does not matter, and an array differs from any other value |
| `StateInvalidation.PatchCoversListedKeys` | src/server/common/utils/state-invalidation.js:10-15 | for every collation and all values the patch holds exactly the listed keys if something changed and none otherwise |
| `StateInvalidation.PermutationsAreDetectedExactlyWhen` | src/server/common/utils/state-invalidation.js:22-32 | for all arrays unchanged means permuted exactly if the collation ties no two distinct strings |
| `StateInvalidation.SwappedTiesCountAsChange` | src/server/common/utils/state-invalidation.js:22-32 | any two tied distinct strings, swapped, count as a change |
| `Escaping.HtmlIsSubstitution` | src/server/common/utils/escape-html.js:6-13 | five successive replacements equal one simultaneous substitution |
| `Escaping.HtmlEntities` | src/server/common/utils/escape-html.js:6-13 | what each of the five characters becomes |
| `Escaping.HtmlDistributes` | src/server/common/utils/escape-html.js:6-13 | escaping distributes over concatenation |
| `Escaping.HtmlRoundTrip` | src/server/common/utils/escape-html.js:6-13 | decoding the five entities recovers every string |
| `Escaping.HtmlIsInjective` | src/server/common/utils/escape-html.js:6-13 | distinct strings have distinct escapes |
| `Escaping.EscapedHtmlIsInert` | src/server/common/utils/escape-html.js:1-13 | no angle bracket or quote survives |
| `Escaping.GraphQLIsSubstitution` | src/server/common/helpers/graphql-utils.js:6-13 | five successive replacements equal one simultaneous substitution |
| `Escaping.GraphQLDistributes` | src/server/common/helpers/graphql-utils.js:6-13 | escaping distributes over concatenation |
| `Escaping.GraphQLRoundTrip` | src/server/common/helpers/graphql-utils.js:1-13 | by section 2.9.4 of the GraphQL specification (October 2021) the escape denotes the original exactly when that has source characters only |
| `Escaping.ControlCharacterIsNotAllowed` | src/server/common/helpers/graphql-utils.js:6-13 | a control character is passed through and makes the document invalid |
| `Escaping.GraphQLIsInjective` | src/server/common/helpers/graphql-utils.js:6-13 | undoing the escapes recovers every string, so distinct strings have distinct escapes |
| `Relationships.AcceptsFiveColons` | src/plugins/auth.js:275-286 | exactly the strings with at least five colons are accepted |
| `Relationships.PrinterUndoesParser` | src/plugins/auth.js:260-302 | joining the six fields gives back any accepted string |
| `Relationships.ParserUndoesPrinter` | src/plugins/auth.js:260-302 | the six fields are recovered exactly when at most the organisation name has colons |
| `Relationships.ColonMovesIntoName` | src/plugins/auth.js:290-301 | a colon in the level of assurance moves its first part into the name and shifts the later fields |
| `Relationships.ColonOutsideNameIsLost` | src/plugins/auth.js:290-301 | six fields that are not recovered |
| `Relationships.CurrentRelationshipIsFirst` | src/plugins/auth.js:314-316 | the relationship found is the first listed one with the current id, and none is found exactly when no listed one has it |
| `Relationships.FieldsDescribe` | src/plugins/auth.js:260-302 | the fields begin with the relationship's id, print back to it, and only the name has colons |
| `Relationships.Request.MapPayloadToProfile` | src/plugins/auth.js:309-334 | authenticated credentials carry the user's number and name and the id and fields of the first relationship with the current id, or the parser fails |

## Left out

- DOM, hints, banners, CSS classes and the input's `max` attribute of the select-actions page: display only, nothing reads them back.
- Floating-point noise, infinities typed into a field and the rounding of hints: areas are exact finite reals.
- The text a quantity field had at focus: whether an edit changed it is a free boolean, which allows every real behaviour.
- A non-quantity action rendered without its hidden field: the server renders one for each.
- Liveness of the network: a response may never arrive; nothing is claimed about such a run beyond the invariants.
- HTTP, the cross-site token, JSON and form encoding: responses and payloads are values.
- Validation and redisplay of a rejected submission: only the protection it leaves on the page is modelled.
- Descriptions, consents and versions in the stored actions: copied unchanged.
- `findNextTaskPage`, `hasNextTaskPage`, back links and redirects of the task list: they depend on the forms engine, which is not part of this model.
- Status labels and tag classes, and page titles of questions: display only.
- The payment strategy and the rest of the claim payload: the start page's data is an input of the visit.
- Concurrent submissions of one claim: the claim steps are sequential.
- Application submissions: a single state write, no history.
- Step handlers of the journey runner: each is an outcome of the page, with late failures as events of their own.
- The timeout race of `retry` and the wait between attempts: a timeout is one more rejection of the call, delays are computed but not waited; waiting times of the OpenID fetch are not modelled.
- The test-only reset of the OpenID cache.
- Locale collation: any total preorder on strings stands for it.
- The rest of the authentication plugin: HTTP and token handling.
