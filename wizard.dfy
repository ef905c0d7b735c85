/**
 * The step machine: one questionnaire session, owning the answer store,
 * the page being shown and that page's local draft. Each method is one
 * user action on the page it belongs to (the handlers of
 * src/components/LandingPage.jsx, ServiceHistory.jsx, HealthDisability.jsx,
 * SpecialStatus.jsx and EligibilitySummary.jsx). Entering a page
 * initialises its draft from the store, as mounting the component does.
 */
module Wizard {
  import opened AnswerStore
  import opened Wrappers
  import opened Routes
  import opened DecisionEngine
  import SH = ServiceHistoryForm
  import HD = HealthDisabilityForm
  import SS = SpecialStatusForm

  class Session {
    var step: Step
    var store: State
    var serviceDraft: ServiceHistory
    var errors: SH.Errors
    var healthDraft: HealthDisability
    var specialDraft: SpecialStatus

    /** Every page after the service-history page sees a completely answered service history. */
    ghost predicate Valid()
      reads this
    {
      (step == HealthDisabilityStep || step == SpecialStatusStep || step == SummaryStep) ==>
        SH.Complete(store.serviceHistory)
    }

    /** A new session: the landing page and the initial aggregate. */
    constructor ()
      ensures step == Landing && store == INITIAL_STATE
      ensures Valid()
    {
      step := Landing;
      store := INITIAL_STATE;
      serviceDraft := INITIAL_STATE.serviceHistory;
      errors := map[];
      healthDraft := INITIAL_STATE.healthDisability;
      specialDraft := INITIAL_STATE.specialStatus;
    }

    /** The landing page's start button: open the service-history page. */
    method StartCheck()
      requires step == Landing && Valid()
      modifies this
      ensures step == ServiceHistoryStep && store == old(store)
      ensures serviceDraft == old(store).serviceHistory && errors == map[]
      ensures healthDraft == old(healthDraft) && specialDraft == old(specialDraft)
      ensures Valid()
    {
      step := ServiceHistoryStep;
      serviceDraft := SH.InitialDraft(store.serviceHistory);
      errors := map[];
    }

    /** `handleChange` on the service-history page: one select changed. */
    method ChangeServiceField(f: ServiceField, v: string)
      requires step == ServiceHistoryStep && Valid()
      modifies this
      ensures ServiceValue(serviceDraft, f) == v
      ensures forall g :: g != f ==> ServiceValue(serviceDraft, g) == ServiceValue(old(serviceDraft), g)
      ensures errors == SH.ClearError(old(errors), f)
      ensures step == old(step) && store == old(store)
      ensures healthDraft == old(healthDraft) && specialDraft == old(specialDraft)
      ensures Valid()
    {
      serviceDraft := SH.WithField(serviceDraft, f, v);
      errors := SH.ClearError(errors, f);
    }

    /**
     * `handleContinue` on the service-history page: validate, and only when
     * every field is answered commit the draft and open the next page.
     */
    method ServiceHistoryContinue() returns (ok: bool)
      requires step == ServiceHistoryStep && Valid()
      modifies this
      ensures ok <==> SH.Complete(old(serviceDraft))
      ensures errors == SH.MissingFieldErrors(old(serviceDraft))
      ensures serviceDraft == old(serviceDraft) && specialDraft == old(specialDraft)
      ensures ok ==> step == HealthDisabilityStep && store == old(store).(serviceHistory := old(serviceDraft))
      ensures ok ==> healthDraft == old(store).healthDisability
      ensures !ok ==> step == old(step) && store == old(store) && healthDraft == old(healthDraft)
      ensures Valid()
    {
      var newErrors, valid := SH.ValidateForm(serviceDraft);
      errors := newErrors;
      ok := valid;
      if ok {
        CommitWholeDraft(store, serviceDraft, healthDraft, specialDraft);
        store := Reduce(store, UpdateServiceHistory(ServiceHistoryPayload(serviceDraft)));
        step := HealthDisabilityStep;
        healthDraft := HD.InitialDraft(store.healthDisability);
      }
    }

    /** `handleBack` on the service-history page: back to the landing page, nothing committed. */
    method ServiceHistoryBack()
      requires step == ServiceHistoryStep && Valid()
      modifies this
      ensures step == Landing && store == old(store)
      ensures serviceDraft == old(serviceDraft) && errors == old(errors)
      ensures healthDraft == old(healthDraft) && specialDraft == old(specialDraft)
      ensures Valid()
    {
      step := Landing;
    }

    /** `handleCheckboxChange` on the health page: one box ticked or cleared. */
    method HealthCheckboxChange(f: HealthField, checked: bool)
      requires step == HealthDisabilityStep && Valid()
      modifies this
      ensures HealthFlag(healthDraft, f) == checked
      ensures forall g :: g != f ==> HealthFlag(healthDraft, g) == HealthFlag(old(healthDraft), g)
      ensures step == old(step) && store == old(store)
      ensures serviceDraft == old(serviceDraft) && errors == old(errors) && specialDraft == old(specialDraft)
      ensures Valid()
    {
      healthDraft := HD.WithFlag(healthDraft, f, checked);
    }

    /** `handleContinue` on the health page: always commits the draft and opens the special-status page. */
    method HealthContinue()
      requires step == HealthDisabilityStep && Valid()
      modifies this
      ensures step == SpecialStatusStep
      ensures store == old(store).(healthDisability := old(healthDraft))
      ensures specialDraft == old(store).specialStatus
      ensures serviceDraft == old(serviceDraft) && errors == old(errors) && healthDraft == old(healthDraft)
      ensures Valid()
    {
      CommitWholeDraft(store, serviceDraft, healthDraft, specialDraft);
      store := Reduce(store, UpdateHealthDisability(HealthDisabilityPayload(healthDraft)));
      step := SpecialStatusStep;
      specialDraft := SS.InitialDraft(store.specialStatus);
    }

    /** `handleBack` on the health page: back to the service-history page, nothing committed. */
    method HealthBack()
      requires step == HealthDisabilityStep && Valid()
      modifies this
      ensures step == ServiceHistoryStep && store == old(store)
      ensures serviceDraft == old(store).serviceHistory && errors == map[]
      ensures healthDraft == old(healthDraft) && specialDraft == old(specialDraft)
      ensures Valid()
    {
      step := ServiceHistoryStep;
      serviceDraft := SH.InitialDraft(store.serviceHistory);
      errors := map[];
    }

    /** `handleCheckboxChange` on the special-status page: one box ticked or cleared. */
    method SpecialCheckboxChange(f: SpecialField, checked: bool)
      requires step == SpecialStatusStep && Valid()
      modifies this
      ensures SpecialFlag(specialDraft, f) == checked
      ensures forall g :: g != f ==> SpecialFlag(specialDraft, g) == SpecialFlag(old(specialDraft), g)
      ensures step == old(step) && store == old(store)
      ensures serviceDraft == old(serviceDraft) && errors == old(errors) && healthDraft == old(healthDraft)
      ensures Valid()
    {
      specialDraft := SS.WithFlag(specialDraft, f, checked);
    }

    /**
     * `handleContinue` on the special-status page: always commits the draft
     * and opens the summary; the other two categories are untouched.
     */
    method SpecialContinue()
      requires step == SpecialStatusStep && Valid()
      modifies this
      ensures step == SummaryStep
      ensures store == old(store).(specialStatus := old(specialDraft))
      ensures store.serviceHistory == old(store).serviceHistory && store.healthDisability == old(store).healthDisability
      ensures serviceDraft == old(serviceDraft) && errors == old(errors)
      ensures healthDraft == old(healthDraft) && specialDraft == old(specialDraft)
      ensures Valid()
    {
      CommitWholeDraft(store, serviceDraft, healthDraft, specialDraft);
      store := Reduce(store, UpdateSpecialStatus(SpecialStatusPayload(specialDraft)));
      step := SummaryStep;
    }

    /** `handleBack` on the special-status page: back to the health page, nothing committed. */
    method SpecialBack()
      requires step == SpecialStatusStep && Valid()
      modifies this
      ensures step == HealthDisabilityStep && store == old(store)
      ensures healthDraft == old(store).healthDisability
      ensures serviceDraft == old(serviceDraft) && errors == old(errors) && specialDraft == old(specialDraft)
      ensures Valid()
    {
      step := HealthDisabilityStep;
      healthDraft := HD.InitialDraft(store.healthDisability);
    }

    /** What the summary page shows for the current answers. */
    method Evaluate() returns (v: Verdict)
      requires step == SummaryStep && Valid()
      ensures v.eligibilityReasons == FiredReasons(RULES, store)
      ensures v.priorityLevel == HighestTier(RULES, store)
      ensures v.isEligible <==> AnyFires(RULES, store)
      ensures v.isEligible <==> v.eligibilityReasons != []
    {
      v := CalculateEligibility(store);
    }

    /** `handleBack` on the summary page: back to the special-status page with the store untouched. */
    method SummaryBack()
      requires step == SummaryStep && Valid()
      modifies this
      ensures step == SpecialStatusStep && store == old(store)
      ensures specialDraft == old(store).specialStatus
      ensures serviceDraft == old(serviceDraft) && errors == old(errors) && healthDraft == old(healthDraft)
      ensures Valid()
    {
      step := SpecialStatusStep;
      specialDraft := SS.InitialDraft(store.specialStatus);
    }

    /** `handleStartOver`: reset the store, then go to the landing page. */
    method StartOver()
      requires step == SummaryStep && Valid()
      modifies this
      ensures step == Landing && store == INITIAL_STATE
      ensures serviceDraft == old(serviceDraft) && errors == old(errors)
      ensures healthDraft == old(healthDraft) && specialDraft == old(specialDraft)
      ensures Valid()
    {
      store := Reduce(store, ResetForm);
      step := Landing;
    }

    /** The user answers every select of the service-history page. */
    method FillServiceHistory(sh: ServiceHistory)
      requires step == ServiceHistoryStep && Valid()
      modifies this
      ensures serviceDraft == sh
      ensures errors.Keys == old(errors).Keys && forall f :: f in errors ==> errors[f] == ""
      ensures step == old(step) && store == old(store)
      ensures healthDraft == old(healthDraft) && specialDraft == old(specialDraft)
      ensures Valid()
    {
      ChangeServiceField(Branch, sh.branch);
      ChangeServiceField(YearsServed, sh.yearsServed);
      ChangeServiceField(ActiveDutyStatus, sh.activeDutyStatus);
      assert ServiceValue(serviceDraft, Branch) == sh.branch;
      assert ServiceValue(serviceDraft, YearsServed) == sh.yearsServed;
    }

    /** The user sets every box of the health page. */
    method FillHealthDisability(hd: HealthDisability)
      requires step == HealthDisabilityStep && Valid()
      modifies this
      ensures healthDraft == hd
      ensures step == old(step) && store == old(store)
      ensures serviceDraft == old(serviceDraft) && errors == old(errors) && specialDraft == old(specialDraft)
      ensures Valid()
    {
      HealthCheckboxChange(HasInjury, hd.hasInjury);
      HealthCheckboxChange(HasPTSD, hd.hasPTSD);
      HealthCheckboxChange(HasServiceConnectedDisability, hd.hasServiceConnectedDisability);
      assert HealthFlag(healthDraft, HasInjury) == hd.hasInjury;
      assert HealthFlag(healthDraft, HasPTSD) == hd.hasPTSD;
    }

    /** The user sets every box of the special-status page. */
    method FillSpecialStatus(ss: SpecialStatus)
      requires step == SpecialStatusStep && Valid()
      modifies this
      ensures specialDraft == ss
      ensures step == old(step) && store == old(store)
      ensures serviceDraft == old(serviceDraft) && errors == old(errors) && healthDraft == old(healthDraft)
      ensures Valid()
    {
      SpecialCheckboxChange(HasPurpleHeart, ss.hasPurpleHeart);
      SpecialCheckboxChange(HasMedalOfHonor, ss.hasMedalOfHonor);
      SpecialCheckboxChange(IsFormerPOW, ss.isFormerPOW);
      SpecialCheckboxChange(HasCombatZoneDeployment, ss.hasCombatZoneDeployment);
      assert SpecialFlag(specialDraft, HasPurpleHeart) == ss.hasPurpleHeart;
      assert SpecialFlag(specialDraft, HasMedalOfHonor) == ss.hasMedalOfHonor;
      assert SpecialFlag(specialDraft, IsFormerPOW) == ss.isFormerPOW;
    }

    /**
     * Going back from the health page to the service-history page and
     * continuing again succeeds without changing the store: the answers
     * already committed come back as the draft and pass validation.
     */
    method RevisitServiceHistory() returns (ok: bool)
      requires step == HealthDisabilityStep && Valid()
      modifies this
      ensures ok && step == HealthDisabilityStep && store == old(store)
      ensures healthDraft == old(store).healthDisability
      ensures Valid()
    {
      HealthBack();
      ok := ServiceHistoryContinue();
    }
  }

  /**
   * A whole session: answer every question with the given values, continue
   * through every page, read the summary, then start over. An incomplete
   * service history stops the session on the service-history page.
   */
  method CompleteQuestionnaire(sh: ServiceHistory, hd: HealthDisability, ss: SpecialStatus)
    returns (reached: Step, answers: State, verdict: Option<Verdict>, afterReset: State)
    ensures SH.Complete(sh) ==> reached == SummaryStep && answers == State(sh, hd, ss)
    ensures verdict.Some? <==> SH.Complete(sh)
    ensures verdict.Some? ==> verdict.value.eligibilityReasons == FiredReasons(RULES, answers)
    ensures verdict.Some? ==> verdict.value.priorityLevel == HighestTier(RULES, answers)
    ensures verdict.Some? ==> (verdict.value.isEligible <==> AnyFires(RULES, answers))
    ensures !SH.Complete(sh) ==> reached == ServiceHistoryStep && answers == INITIAL_STATE
    ensures afterReset == INITIAL_STATE
  {
    var session := new Session();
    session.StartCheck();
    session.FillServiceHistory(sh);
    var ok := session.ServiceHistoryContinue();
    if !ok {
      reached, answers, verdict, afterReset := session.step, session.store, None, session.store;
      return;
    }
    session.FillHealthDisability(hd);
    session.HealthContinue();
    session.FillSpecialStatus(ss);
    session.SpecialContinue();
    var v := session.Evaluate();
    verdict := Some(v);
    reached, answers := session.step, session.store;
    session.StartOver();
    afterReset := session.store;
  }
}
