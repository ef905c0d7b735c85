# Eligibility questionnaire: answer store, step machine and decision engine

This project models, in Dafny, the core of a multi-step questionnaire that
checks whether a service member may be eligible for benefits. A user walks
through three pages:

- service history: three selects;
- health and disability: three check boxes;
- special military status: four check boxes.

A summary page then derives a verdict from the answers:

- an eligible flag;
- the reasons, in a fixed order;
- a priority tier.

The model has these modules:

- `AnswerStore` (`answer_store.dfy`): the aggregate of answers. It holds the three categories and the partial payloads that update them. It also holds the reducer, a pure function from a state and an action to the next state, and the guard that refuses to read the store outside its provider.
- `Routes` (`routes.dfy`): the five pages and the paths they are routed at.
- `DecisionEngine` (`decision_engine.dfy`): the summary page's evaluator, written as the imperative method it is. The method has six `if`s that reassign three locals. It is proved equal to a reference definition over a table of six rules, and the rule table properties are proved as lemmas: order, uniqueness, the priority conditions and the scenarios.
- `ServiceHistoryForm`, `HealthDisabilityForm`, `SpecialStatusForm`: each page's local draft. This covers:
  - how the draft is initialised from the store;
  - the single-field change handlers;
  - for the service-history page, the error map and the `validateForm` method.
- `Progress` (`progress.dfy`): the progress bar's step table, the lookup of the current step index, and the completed / current / upcoming classification.
- `Wizard` (`wizard.dfy`): the step machine, a `Session` class. It owns:
  - the page being shown;
  - the store;
  - the drafts;
  - the error map.

  Each method except four is one user action on one page, with the whole new state in its `ensures`. The four exceptions are scripted sequences of those single actions: `FillServiceHistory`, `FillHealthDisability` and `FillSpecialStatus` fill in a whole page, and `RevisitServiceHistory` goes back one page and continues again. `Valid()` is the invariant every action keeps: every page after the service-history page sees a completely answered service history. `CompleteQuestionnaire` drives a fresh session through a full pass and then Start Over.

Navigation is an assignment to the `step` field. Mounting a page, which copies the store's slice into the page's draft, happens inside the action that navigates there.

## Model

| member | source | states |
|---|---|---|
| AnswerStore.InitialStateIsDefault | src/context/EligibilityContext.jsx:5-22 | every service field of the initial aggregate is the empty string and every one of the seven flags is false |
| AnswerStore.Reduce | src/context/EligibilityContext.jsx:24-46 | an update of one category leaves the other two categories equal to the old ones; a reset yields the initial aggregate whatever the prior state; an unrecognised action leaves the state unchanged |
| AnswerStore.UpdateChangesExactlyPayloadFields | src/context/EligibilityContext.jsx:26-40 | after an update, a field named in the payload holds the payload's value and every other field, in any category, holds its old value |
| AnswerStore.ReduceIdempotent | src/context/EligibilityContext.jsx:24-46 | dispatching the same action twice gives the same state as dispatching it once |
| AnswerStore.EmptyPayloadKeepsState | src/context/EligibilityContext.jsx:29-39 | an update with an empty payload of any category leaves the state equal to the old one |
| AnswerStore.CommitWholeDraft | src/context/EligibilityContext.jsx:26-40 | committing a whole draft makes that category equal to the draft and leaves the others alone |
| AnswerStore.ServiceHistoryPayload | src/context/EligibilityContext.jsx:51-53 | the payload built from a service-history draft merges into any old service history to give exactly the draft |
| AnswerStore.HealthDisabilityPayload | src/context/EligibilityContext.jsx:55-57 | the payload built from a health draft merges into any old health category to give exactly the draft |
| AnswerStore.SpecialStatusPayload | src/context/EligibilityContext.jsx:59-61 | the payload built from a special-status draft merges into any old special-status category to give exactly the draft |
| AnswerStore.UseEligibility | src/context/EligibilityContext.jsx:82-88 | reading the store succeeds exactly when a provider encloses the caller and then yields the provider's state; without one it fails with the fixed message instead of yielding a default |
| Routes.StepAt | src/App.jsx:17-21 | a path that is found names the page routed there; a path that is not found is routed to no page |
| Routes.StepAtPath | src/App.jsx:17-21 | every page is found again at its own path, so no two pages share a path |
| DecisionEngine.Texts | src/components/EligibilitySummary.jsx:32-61 | the displayed list has one string per reason, each reason's own text, in the same order |
| DecisionEngine.TextInjective | src/components/EligibilitySummary.jsx:32-61 | two reasons with the same text are the same reason |
| DecisionEngine.CalculateEligibility | src/components/EligibilitySummary.jsx:20-65 | the reasons are those of the firing rules in rule order, the priority is the highest tier a firing rule implies, and the flag is set exactly when some rule fires, which is exactly when the reason list is non-empty |
| DecisionEngine.RulesUnfolded | src/components/EligibilitySummary.jsx:28-62 | the reason list is the six rules' contributions in order; the priority is Highest when a decoration or prisoner-of-war rule fires, otherwise High when the disability rule fires, otherwise Standard |
| DecisionEngine.FiringRuleListed | src/components/EligibilitySummary.jsx:28-62 | the reason of every rule that fires is in the list |
| DecisionEngine.EligibleIffReasons | src/components/EligibilitySummary.jsx:28-62 | some rule fires exactly when the reason list is non-empty, because every branch that sets the flag also pushes a reason |
| DecisionEngine.ReasonsInRuleOrder | src/components/EligibilitySummary.jsx:28-62 | the reasons keep the order of the rules that contribute them |
| DecisionEngine.ListedIffFires | src/components/EligibilitySummary.jsx:28-62 | a reason is listed exactly when its rule is in the table and fires: no reason appears that its rule did not push, and every firing rule's reason does |
| DecisionEngine.ReasonsDistinct | src/components/EligibilitySummary.jsx:28-62 | each reason appears at most once |
| DecisionEngine.ReasonsOrderedAndUnique | src/components/EligibilitySummary.jsx:28-62 | the reasons are in the fixed rule order, without repeats, and there are at most six |
| DecisionEngine.CombatDecorationListedOnce | src/components/EligibilitySummary.jsx:42-46 | with a Purple Heart or a Medal of Honor or both, "Combat decoration recipient" appears exactly once |
| DecisionEngine.HighestPriorityIff | src/components/EligibilitySummary.jsx:42-52 | the priority is Highest exactly when a Purple Heart, a Medal of Honor or prisoner-of-war status is recorded |
| DecisionEngine.HighPriorityIff | src/components/EligibilitySummary.jsx:36-52 | the priority is High exactly when a service-connected disability is recorded and no Highest trigger is |
| DecisionEngine.HealthAndDeploymentKeepPriority | src/components/EligibilitySummary.jsx:54-62 | changing injury, PTSD or combat deployment never changes the priority |
| DecisionEngine.ServiceRuleStatuses | src/components/EligibilitySummary.jsx:28-30 | the statuses veteran, retired and active-duty qualify; national-guard, reserves and the empty status do not |
| DecisionEngine.DefaultVerdict | src/components/EligibilitySummary.jsx:23-62 | on the initial aggregate no rule fires, there are no reasons and the priority is Standard |
| DecisionEngine.VeteranOnly | src/components/EligibilitySummary.jsx:28-33 | a veteran with nothing else recorded gets exactly the service reason at Standard priority |
| DecisionEngine.VeteranWithDisability | src/components/EligibilitySummary.jsx:28-40 | a veteran with a service-connected disability gets the service and disability reasons, in that order, at High priority |
| DecisionEngine.PurpleHeartWithDisability | src/components/EligibilitySummary.jsx:36-46 | a Purple Heart with a service-connected disability gives Highest priority and exactly the disability and decoration reasons, in that order |
| ServiceHistoryForm.InitialDraft | src/components/ServiceHistory.jsx:10-14 | on entry the draft equals the store's service-history slice, an empty value read as the empty string |
| ServiceHistoryForm.WithField | src/components/ServiceHistory.jsx:50 | a select change sets the named draft field and keeps the other two |
| ServiceHistoryForm.WithFieldRestores | src/components/ServiceHistory.jsx:50 | writing a field's old value back undoes a change |
| ServiceHistoryForm.ClearError | src/components/ServiceHistory.jsx:52-54 | after a change the edited field shows no error; the error keys and every other field's message are kept |
| ServiceHistoryForm.MissingFieldErrors | src/components/ServiceHistory.jsx:58-70 | there is an error for every empty field, not just the first, and only for those, each with that field's fixed message |
| ServiceHistoryForm.NoErrorsIffComplete | src/components/ServiceHistory.jsx:57-74 | there are no errors exactly when all three fields are non-empty |
| ServiceHistoryForm.OnlyBranchMissing | src/components/ServiceHistory.jsx:57-74 | with only the branch empty there is exactly one error, keyed by the branch |
| ServiceHistoryForm.ValidateForm | src/components/ServiceHistory.jsx:57-74 | the recorded errors are exactly the missing-field errors, and validation succeeds exactly when the draft is complete |
| HealthDisabilityForm.InitialDraft | src/components/HealthDisability.jsx:10-14 | on entry the draft equals the store's health slice, a missing flag read as false |
| HealthDisabilityForm.WithFlag | src/components/HealthDisability.jsx:16-18 | a checkbox change sets exactly one draft flag and keeps the other two |
| HealthDisabilityForm.WithFlagRestores | src/components/HealthDisability.jsx:16-18 | setting a box back to its old value gives back the old draft |
| SpecialStatusForm.InitialDraft | src/components/SpecialStatus.jsx:10-15 | on entry the draft equals the store's special-status slice, a missing flag read as false |
| SpecialStatusForm.WithFlag | src/components/SpecialStatus.jsx:17-19 | a checkbox change sets exactly one of the four draft flags and keeps the other three |
| SpecialStatusForm.WithFlagRestores | src/components/SpecialStatus.jsx:17-19 | setting a box back to its old value gives back the old draft |
| Progress.Find | src/components/ProgressIndicator.jsx:16 | a found position is the first table entry at the path; nothing is found only when no entry is at the path |
| Progress.CurrentStepIndex | src/components/ProgressIndicator.jsx:8-18 | the index is at most 4; it is 0 exactly when no step is at the path, otherwise it is the id of the step at the path |
| Progress.CurrentStepOfPage | src/components/ProgressIndicator.jsx:8-18 | the four question and summary pages get indices 1 to 4 in order and the landing page gets 0 |
| Progress.UnknownPathIsZero | src/components/ProgressIndicator.jsx:15-18 | a path that is routed to no page gets index 0 |
| Progress.Trichotomy | src/components/ProgressIndicator.jsx:26-28 | each step is exactly one of completed, current and upcoming |
| Progress.StatusesOfTable | src/components/ProgressIndicator.jsx:26-28 | the completed steps are exactly those listed before the current one; at most one step is current; with index 0 every step is upcoming |
| Wizard.Session.constructor | src/context/EligibilityContext.jsx:49 | a session starts on the landing page with the initial aggregate |
| Wizard.Session.StartCheck | src/components/LandingPage.jsx:8-10 | starting always opens the service-history page, with the draft copied from the store, no errors and the store unchanged |
| Wizard.Session.ChangeServiceField | src/components/ServiceHistory.jsx:49-55 | one draft field takes the new value, the others and the store are unchanged, and that field's shown error is blanked |
| Wizard.Session.ServiceHistoryContinue | src/components/ServiceHistory.jsx:76-81 | the errors become the missing-field errors; only when the draft is complete is it committed and the health page opened; otherwise the page and the store are unchanged |
| Wizard.Session.ServiceHistoryBack | src/components/ServiceHistory.jsx:83-85 | back goes to the landing page without committing the draft or changing the store |
| Wizard.Session.HealthCheckboxChange | src/components/HealthDisability.jsx:16-18 | one draft flag changes; the store and the page are unchanged |
| Wizard.Session.HealthContinue | src/components/HealthDisability.jsx:20-23 | continuing always commits the whole draft into the health category, and only there, and opens the special-status page, whose draft is copied from the store |
| Wizard.Session.HealthBack | src/components/HealthDisability.jsx:25-27 | back goes to the service-history page with the store unchanged, so its draft shows the committed answers |
| Wizard.Session.SpecialCheckboxChange | src/components/SpecialStatus.jsx:17-19 | one draft flag changes; the store and the page are unchanged |
| Wizard.Session.SpecialContinue | src/components/SpecialStatus.jsx:21-24 | continuing always commits the whole draft into the special-status category, never changes service history or health, and opens the summary |
| Wizard.Session.SpecialBack | src/components/SpecialStatus.jsx:26-28 | back goes to the health page with the store unchanged |
| Wizard.Session.Evaluate | src/components/EligibilitySummary.jsx:67 | the summary shows the verdict of the current answers |
| Wizard.Session.SummaryBack | src/components/EligibilitySummary.jsx:10-12 | back goes to the special-status page without touching the store |
| Wizard.Session.StartOver | src/components/EligibilitySummary.jsx:14-17 | start over resets the store to the initial aggregate and goes to the landing page |
| Wizard.Session.RevisitServiceHistory | src/components/HealthDisability.jsx:25-27 | going back from the health page and continuing again always succeeds and leaves the store as it was: committed answers survive back navigation |
| Wizard.Session.FillServiceHistory | src/components/ServiceHistory.jsx:49-55 | three select changes set the draft to the given answers without touching the store, and leave every error key in place but blanked |
| Wizard.Session.FillHealthDisability | src/components/HealthDisability.jsx:16-18 | three checkbox changes set the draft to the given answers without touching the store |
| Wizard.Session.FillSpecialStatus | src/components/SpecialStatus.jsx:17-19 | four checkbox changes set the draft to the given answers without touching the store |
| Wizard.CompleteQuestionnaire | src/components/EligibilitySummary.jsx:14-17 | a full forward pass with a complete service history reaches the summary with exactly the given answers and their verdict (reasons, priority and eligible flag), and Start Over then restores the initial aggregate; an incomplete service history stops on the service-history page with nothing committed |

## Left out

- Rendering is left out because it is presentation: the JSX, the Tailwind classes, the icons, the option lists of the selects, the benefit copy and the summary's `nextSteps` links, including their `href` and `tel:` targets, which are browser I/O.
- `src/components/Layout.jsx` and everything on the landing page except its start button are left out because they are layout.
- React hooks (`useState`, `useReducer`, `createContext`) and the router's `navigate` are framework calls. The store becomes a field of the session, navigation becomes an assignment to `step`, and mounting a page becomes the draft copy done by the action that opens it.
- Typing an address into the browser is not modelled. A session moves only through its buttons, and each handler requires the session to be on the page that owns it. `Valid()` therefore holds only over button-driven sessions; a page reached by address would show whatever the store holds.
- A payload key outside its category is not modelled, because the payloads are typed. Each payload is a record of optional fields, where a present field stands for a present key.
- The action type strings are not modelled. An action whose type is none of the four known ones is the `Unrecognised` constructor.
- Re-render timing and the asynchronous batching of state updates are not modelled: each user action is one atomic step.
- DecisionEngine.CalculateEligibility: the reasons are the `Reason` values, not strings, and the priority is the `Priority` value, not its label. `Reason.Text()` and `Priority.Label()` give the exact strings the page shows, and `TextInjective` shows that the strings identify the reasons.
- ServiceHistoryForm.InitialDraft and the two other `InitialDraft` functions: the typed fields are never `undefined` or `null`. `x || ''` and `b || false` are therefore the identity, and the functions keep the operator's shape.
- Rule 2 (src/components/EligibilitySummary.jsx:36-40) sets the priority to High whatever it was before. Only rules 3 and 4 set Highest, and they run after rule 2, so `HighestPriorityIff` and `HighPriorityIff` give the final tier.
