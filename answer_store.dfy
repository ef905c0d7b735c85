/**
 * The answer store: the three answer categories of the questionnaire, the
 * partial payloads that update them, and the reducer that turns a state and
 * an action into the next state (src/context/EligibilityContext.jsx).
 */
module AnswerStore {
  import opened Wrappers

  // ---------------------------------------------------------------------
  // Categories and the aggregate
  // ---------------------------------------------------------------------

  /** Answers about military service; each one is a select value, `""` when unset. */
  datatype ServiceHistory = ServiceHistory(branch: string, yearsServed: string, activeDutyStatus: string)

  /** Health and disability check boxes. */
  datatype HealthDisability = HealthDisability(hasInjury: bool, hasPTSD: bool, hasServiceConnectedDisability: bool)

  /** Special military status check boxes. */
  datatype SpecialStatus = SpecialStatus(
    hasPurpleHeart: bool, hasMedalOfHonor: bool, isFormerPOW: bool, hasCombatZoneDeployment: bool)

  /** The aggregate the store owns. */
  datatype State = State(serviceHistory: ServiceHistory, healthDisability: HealthDisability, specialStatus: SpecialStatus)

  /** The aggregate a session starts with and a reset returns to. */
  const INITIAL_STATE: State :=
    State(
      ServiceHistory("", "", ""),
      HealthDisability(false, false, false),
      SpecialStatus(false, false, false, false))

  // ---------------------------------------------------------------------
  // Field names, as the step components pass them to their change handlers
  // ---------------------------------------------------------------------

  datatype ServiceField = Branch | YearsServed | ActiveDutyStatus
  datatype HealthField = HasInjury | HasPTSD | HasServiceConnectedDisability
  datatype SpecialField = HasPurpleHeart | HasMedalOfHonor | IsFormerPOW | HasCombatZoneDeployment

  function ServiceValue(sh: ServiceHistory, f: ServiceField): string {
    match f
    case Branch => sh.branch
    case YearsServed => sh.yearsServed
    case ActiveDutyStatus => sh.activeDutyStatus
  }

  function HealthFlag(hd: HealthDisability, f: HealthField): bool {
    match f
    case HasInjury => hd.hasInjury
    case HasPTSD => hd.hasPTSD
    case HasServiceConnectedDisability => hd.hasServiceConnectedDisability
  }

  function SpecialFlag(ss: SpecialStatus, f: SpecialField): bool {
    match f
    case HasPurpleHeart => ss.hasPurpleHeart
    case HasMedalOfHonor => ss.hasMedalOfHonor
    case IsFormerPOW => ss.isFormerPOW
    case HasCombatZoneDeployment => ss.hasCombatZoneDeployment
  }

  /** Every field of the aggregate, qualified by its category. */
  datatype Field = InService(s: ServiceField) | InHealth(h: HealthField) | InSpecial(p: SpecialField)

  /** A field's value: the service fields hold text, the others a flag. */
  datatype Value = Text(text: string) | Flag(flag: bool)

  /** The value of one field of the aggregate. */
  function Get(st: State, f: Field): Value {
    match f
    case InService(s) => Text(ServiceValue(st.serviceHistory, s))
    case InHealth(h) => Flag(HealthFlag(st.healthDisability, h))
    case InSpecial(p) => Flag(SpecialFlag(st.specialStatus, p))
  }

  /** What a field holds in the initial aggregate: empty text, or false. */
  function DefaultValue(f: Field): Value {
    if f.InService? then Text("") else Flag(false)
  }

  // ---------------------------------------------------------------------
  // Payloads: a partial object of one category (Some = the key is present)
  // ---------------------------------------------------------------------

  datatype ServiceHistoryPatch = ServiceHistoryPatch(
    branch: Option<string>, yearsServed: Option<string>, activeDutyStatus: Option<string>)

  datatype HealthDisabilityPatch = HealthDisabilityPatch(
    hasInjury: Option<bool>, hasPTSD: Option<bool>, hasServiceConnectedDisability: Option<bool>)

  datatype SpecialStatusPatch = SpecialStatusPatch(
    hasPurpleHeart: Option<bool>, hasMedalOfHonor: Option<bool>,
    isFormerPOW: Option<bool>, hasCombatZoneDeployment: Option<bool>)

  /** The payload a step component sends when it commits its whole draft. */
  function ServiceHistoryPayload(d: ServiceHistory): (p: ServiceHistoryPatch)
    ensures forall sh :: MergeServiceHistory(sh, p) == d
  {
    ServiceHistoryPatch(Some(d.branch), Some(d.yearsServed), Some(d.activeDutyStatus))
  }

  function HealthDisabilityPayload(d: HealthDisability): (p: HealthDisabilityPatch)
    ensures forall hd :: MergeHealthDisability(hd, p) == d
  {
    HealthDisabilityPatch(Some(d.hasInjury), Some(d.hasPTSD), Some(d.hasServiceConnectedDisability))
  }

  function SpecialStatusPayload(d: SpecialStatus): (p: SpecialStatusPatch)
    ensures forall ss :: MergeSpecialStatus(ss, p) == d
  {
    SpecialStatusPatch(Some(d.hasPurpleHeart), Some(d.hasMedalOfHonor), Some(d.isFormerPOW), Some(d.hasCombatZoneDeployment))
  }

  /** `{ ...old, ...payload }` for each category: present keys win, absent keys keep the old value. */
  function MergeServiceHistory(sh: ServiceHistory, p: ServiceHistoryPatch): ServiceHistory {
    ServiceHistory(p.branch.GetOr(sh.branch), p.yearsServed.GetOr(sh.yearsServed),
                   p.activeDutyStatus.GetOr(sh.activeDutyStatus))
  }

  function MergeHealthDisability(hd: HealthDisability, p: HealthDisabilityPatch): HealthDisability {
    HealthDisability(p.hasInjury.GetOr(hd.hasInjury), p.hasPTSD.GetOr(hd.hasPTSD),
                     p.hasServiceConnectedDisability.GetOr(hd.hasServiceConnectedDisability))
  }

  function MergeSpecialStatus(ss: SpecialStatus, p: SpecialStatusPatch): SpecialStatus {
    SpecialStatus(p.hasPurpleHeart.GetOr(ss.hasPurpleHeart), p.hasMedalOfHonor.GetOr(ss.hasMedalOfHonor),
                  p.isFormerPOW.GetOr(ss.isFormerPOW), p.hasCombatZoneDeployment.GetOr(ss.hasCombatZoneDeployment))
  }

  // ---------------------------------------------------------------------
  // Actions and the reducer
  // ---------------------------------------------------------------------

  /**
   * The actions the provider dispatches. `Unrecognised(tag)` stands for an
   * action whose type string is none of the four the reducer knows.
   */
  datatype Action =
    | UpdateServiceHistory(servicePayload: ServiceHistoryPatch)
    | UpdateHealthDisability(healthPayload: HealthDisabilityPatch)
    | UpdateSpecialStatus(specialPayload: SpecialStatusPatch)
    | ResetForm
    | Unrecognised(tag: string)
  {
    predicate IsUpdate() {
      UpdateServiceHistory? || UpdateHealthDisability? || UpdateSpecialStatus?
    }
  }

  /** The value an action's payload gives to field `f`, or None when the payload has no such key. */
  function PayloadValue(a: Action, f: Field): Option<Value> {
    match (a, f)
    case (UpdateServiceHistory(p), InService(s)) =>
      var v := match s
        case Branch => p.branch
        case YearsServed => p.yearsServed
        case ActiveDutyStatus => p.activeDutyStatus;
      if v.Some? then Some(Text(v.value)) else None
    case (UpdateHealthDisability(p), InHealth(h)) =>
      var v := match h
        case HasInjury => p.hasInjury
        case HasPTSD => p.hasPTSD
        case HasServiceConnectedDisability => p.hasServiceConnectedDisability;
      if v.Some? then Some(Flag(v.value)) else None
    case (UpdateSpecialStatus(p), InSpecial(q)) =>
      var v := match q
        case HasPurpleHeart => p.hasPurpleHeart
        case HasMedalOfHonor => p.hasMedalOfHonor
        case IsFormerPOW => p.isFormerPOW
        case HasCombatZoneDeployment => p.hasCombatZoneDeployment;
      if v.Some? then Some(Flag(v.value)) else None
    case _ => None
  }

  /** `eligibilityReducer`: one category merge, a reset, or no change. */
  function Reduce(s: State, a: Action): (r: State)
    ensures a.UpdateServiceHistory? ==>
      r.healthDisability == s.healthDisability && r.specialStatus == s.specialStatus
    ensures a.UpdateHealthDisability? ==>
      r.serviceHistory == s.serviceHistory && r.specialStatus == s.specialStatus
    ensures a.UpdateSpecialStatus? ==>
      r.serviceHistory == s.serviceHistory && r.healthDisability == s.healthDisability
    ensures a.ResetForm? ==> r == INITIAL_STATE
    ensures a.Unrecognised? ==> r == s
  {
    match a
    case UpdateServiceHistory(p) => s.(serviceHistory := MergeServiceHistory(s.serviceHistory, p))
    case UpdateHealthDisability(p) => s.(healthDisability := MergeHealthDisability(s.healthDisability, p))
    case UpdateSpecialStatus(p) => s.(specialStatus := MergeSpecialStatus(s.specialStatus, p))
    case ResetForm => INITIAL_STATE
    case Unrecognised(_) => s
  }

  // ---------------------------------------------------------------------
  // Properties of the store
  // ---------------------------------------------------------------------

  /** Every service field of the initial aggregate is empty and every flag false. */
  lemma InitialStateIsDefault()
    ensures forall f :: Get(INITIAL_STATE, f) == DefaultValue(f)
  {
  }

  /**
   * An update changes exactly the fields its payload names: a key in the
   * payload takes the payload's value, every other field of the same
   * category and every field of the other two categories keeps its value.
   */
  lemma UpdateChangesExactlyPayloadFields(s: State, a: Action, f: Field)
    requires a.IsUpdate()
    ensures Get(Reduce(s, a), f) == PayloadValue(a, f).GetOr(Get(s, f))
  {
  }

  /** Dispatching the same action twice gives the same state as dispatching it once. */
  lemma ReduceIdempotent(s: State, a: Action)
    ensures Reduce(Reduce(s, a), a) == Reduce(s, a)
  {
  }

  /** An update whose payload has no keys leaves the state as it was. */
  lemma EmptyPayloadKeepsState(s: State)
    ensures Reduce(s, UpdateServiceHistory(ServiceHistoryPatch(None, None, None))) == s
    ensures Reduce(s, UpdateHealthDisability(HealthDisabilityPatch(None, None, None))) == s
    ensures Reduce(s, UpdateSpecialStatus(SpecialStatusPatch(None, None, None, None))) == s
  {
  }

  /** Committing a whole draft makes that category equal to the draft and leaves the others alone. */
  lemma CommitWholeDraft(s: State, sh: ServiceHistory, hd: HealthDisability, ss: SpecialStatus)
    ensures Reduce(s, UpdateServiceHistory(ServiceHistoryPayload(sh))) == s.(serviceHistory := sh)
    ensures Reduce(s, UpdateHealthDisability(HealthDisabilityPayload(hd))) == s.(healthDisability := hd)
    ensures Reduce(s, UpdateSpecialStatus(SpecialStatusPayload(ss))) == s.(specialStatus := ss)
  {
  }

  // ---------------------------------------------------------------------
  // The context guard
  // ---------------------------------------------------------------------

  const OUTSIDE_PROVIDER_MESSAGE: string := "useEligibility must be used within an EligibilityProvider"

  /**
   * `useEligibility`: reading the store needs an enclosing provider; without
   * one the hook throws instead of handing out a default state.
   */
  function UseEligibility(context: Option<State>): (r: Result<State, string>)
    ensures r.Success? <==> context.Some?
    ensures r.Success? ==> r.value == context.value
    ensures r.Failure? ==> r.error == OUTSIDE_PROVIDER_MESSAGE
  {
    match context
    case Some(st) => Success(st)
    case None => Failure(OUTSIDE_PROVIDER_MESSAGE)
  }
}
