/** The health-and-disability step's draft of three check boxes (src/components/HealthDisability.jsx). */
module HealthDisabilityForm {
  import opened AnswerStore

  /** The draft a freshly entered step starts from: each flag read from the store with `|| false`. */
  function InitialDraft(stored: HealthDisability): (d: HealthDisability)
    ensures d == stored
  {
    HealthDisability(stored.hasInjury || false, stored.hasPTSD || false,
                     stored.hasServiceConnectedDisability || false)
  }

  /** `handleCheckboxChange`: the draft with one flag set to `checked`. */
  function WithFlag(d: HealthDisability, f: HealthField, checked: bool): (r: HealthDisability)
    ensures HealthFlag(r, f) == checked
    ensures forall g :: g != f ==> HealthFlag(r, g) == HealthFlag(d, g)
  {
    match f
    case HasInjury => d.(hasInjury := checked)
    case HasPTSD => d.(hasPTSD := checked)
    case HasServiceConnectedDisability => d.(hasServiceConnectedDisability := checked)
  }

  /** Unticking a box that was just ticked (or the reverse) gives back the old draft. */
  lemma WithFlagRestores(d: HealthDisability, f: HealthField, checked: bool)
    ensures WithFlag(WithFlag(d, f, checked), f, HealthFlag(d, f)) == d
  {
  }
}
