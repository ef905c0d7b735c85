/**
 * The service-history step's local state: a draft of the three select
 * values and a map of field errors (src/components/ServiceHistory.jsx).
 */
module ServiceHistoryForm {
  import opened AnswerStore

  /** The `errors` object: a key per field that has (or had) an error message. */
  type Errors = map<ServiceField, string>

  /** The message `validateForm` records for a missing field. */
  function Message(f: ServiceField): string {
    match f
    case Branch => "Please select your branch of service"
    case YearsServed => "Please select your years of service"
    case ActiveDutyStatus => "Please select your duty status"
  }

  /** JavaScript's `x || ''` on a string: an empty string is falsy and is replaced by `''`. */
  function OrEmpty(x: string): string {
    if x != "" then x else ""
  }

  /** The draft a freshly entered step starts from: each field read from the store with `|| ''`. */
  function InitialDraft(stored: ServiceHistory): (d: ServiceHistory)
    ensures d == stored
  {
    ServiceHistory(OrEmpty(stored.branch), OrEmpty(stored.yearsServed), OrEmpty(stored.activeDutyStatus))
  }

  /** `{ ...prev, [field]: value }`: the draft with one field replaced. */
  function WithField(d: ServiceHistory, f: ServiceField, v: string): (r: ServiceHistory)
    ensures ServiceValue(r, f) == v
    ensures forall g :: g != f ==> ServiceValue(r, g) == ServiceValue(d, g)
  {
    match f
    case Branch => d.(branch := v)
    case YearsServed => d.(yearsServed := v)
    case ActiveDutyStatus => d.(activeDutyStatus := v)
  }

  /** Writing back a field's old value undoes a change to it. */
  lemma WithFieldRestores(d: ServiceHistory, f: ServiceField, v: string)
    ensures WithField(WithField(d, f, v), f, ServiceValue(d, f)) == d
  {
  }

  /** Whether the form shows an error under field `f`: `errors[field]` is truthy. */
  predicate Shows(errors: Errors, f: ServiceField) {
    f in errors && errors[f] != ""
  }

  /** The error update in `handleChange`: a shown error of the edited field is blanked. */
  function ClearError(errors: Errors, f: ServiceField): (r: Errors)
    ensures r.Keys == errors.Keys
    ensures !Shows(r, f)
    ensures forall g :: g in errors && g != f ==> r[g] == errors[g]
  {
    if Shows(errors, f) then errors[f := ""] else errors
  }

  /** Every select of the draft has a value. */
  predicate Complete(d: ServiceHistory) {
    d.branch != "" && d.yearsServed != "" && d.activeDutyStatus != ""
  }

  /** The errors for a draft: one entry, with its fixed message, for every empty field. */
  function MissingFieldErrors(d: ServiceHistory): (r: Errors)
    ensures forall f :: f in r <==> ServiceValue(d, f) == ""
    ensures forall f :: f in r ==> r[f] == Message(f)
  {
    var e1: Errors := if d.branch == "" then map[Branch := Message(Branch)] else map[];
    var e2 := if d.yearsServed == "" then e1[YearsServed := Message(YearsServed)] else e1;
    if d.activeDutyStatus == "" then e2[ActiveDutyStatus := Message(ActiveDutyStatus)] else e2
  }

  /** A draft has no errors exactly when it is complete. */
  lemma NoErrorsIffComplete(d: ServiceHistory)
    ensures MissingFieldErrors(d) == map[] <==> Complete(d)
  {
  }

  /** With only the branch unset there is exactly one error, keyed by the branch. */
  lemma OnlyBranchMissing(d: ServiceHistory)
    requires d.branch == "" && d.yearsServed != "" && d.activeDutyStatus != ""
    ensures MissingFieldErrors(d) == map[Branch := Message(Branch)]
  {
  }

  /**
   * `validateForm`: checks all three fields, records a message for each
   * empty one, and succeeds when no key was recorded.
   */
  method ValidateForm(d: ServiceHistory) returns (newErrors: Errors, ok: bool)
    ensures newErrors == MissingFieldErrors(d)
    ensures ok <==> Complete(d)
  {
    newErrors := map[];
    if d.branch == "" {
      newErrors := newErrors[Branch := Message(Branch)];
    }
    if d.yearsServed == "" {
      newErrors := newErrors[YearsServed := Message(YearsServed)];
    }
    if d.activeDutyStatus == "" {
      newErrors := newErrors[ActiveDutyStatus := Message(ActiveDutyStatus)];
    }
    ok := |newErrors| == 0;
    NoErrorsIffComplete(d);
  }
}
