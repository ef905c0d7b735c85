/** The special-status step's draft of four check boxes (src/components/SpecialStatus.jsx). */
module SpecialStatusForm {
  import opened AnswerStore

  /** The draft a freshly entered step starts from: each flag read from the store with `|| false`. */
  function InitialDraft(stored: SpecialStatus): (d: SpecialStatus)
    ensures d == stored
  {
    SpecialStatus(stored.hasPurpleHeart || false, stored.hasMedalOfHonor || false,
                  stored.isFormerPOW || false, stored.hasCombatZoneDeployment || false)
  }

  /** `handleCheckboxChange`: the draft with one flag set to `checked`. */
  function WithFlag(d: SpecialStatus, f: SpecialField, checked: bool): (r: SpecialStatus)
    ensures SpecialFlag(r, f) == checked
    ensures forall g :: g != f ==> SpecialFlag(r, g) == SpecialFlag(d, g)
  {
    match f
    case HasPurpleHeart => d.(hasPurpleHeart := checked)
    case HasMedalOfHonor => d.(hasMedalOfHonor := checked)
    case IsFormerPOW => d.(isFormerPOW := checked)
    case HasCombatZoneDeployment => d.(hasCombatZoneDeployment := checked)
  }

  /** Unticking a box that was just ticked (or the reverse) gives back the old draft. */
  lemma WithFlagRestores(d: SpecialStatus, f: SpecialField, checked: bool)
    ensures WithFlag(WithFlag(d, f, checked), f, SpecialFlag(d, f)) == d
  {
  }
}
