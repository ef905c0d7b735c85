/**
 * The progress bar: the table of the four questionnaire steps, the step
 * number of the current path, and each step's completed / current /
 * upcoming status (src/components/ProgressIndicator.jsx).
 */
module Progress {
  import opened Wrappers
  import opened Routes

  datatype StepEntry = StepEntry(id: nat, name: string, path: string)

  /** The `steps` table, in display order. */
  const STEPS: seq<StepEntry> := [
    StepEntry(1, "Service History", "/service-history"),
    StepEntry(2, "Health & Disability", "/health-disability"),
    StepEntry(3, "Special Status", "/special-status"),
    StepEntry(4, "Eligibility Summary", "/eligibility-summary")]

  /** `steps.find(step => step.path === path)`: the position of the first entry at `path`. */
  function Find(steps: seq<StepEntry>, path: string): (r: Option<nat>)
    ensures r.Some? ==> r.value < |steps| && steps[r.value].path == path
    ensures r.Some? ==> forall j :: 0 <= j < r.value ==> steps[j].path != path
    ensures r.None? ==> forall j :: 0 <= j < |steps| ==> steps[j].path != path
  {
    if steps == [] then None
    else if steps[0].path == path then Some(0)
    else match Find(steps[1..], path)
      case Some(i) => Some(i + 1)
      case None => None
  }

  /** `getCurrentStepIndex`: the id of the step at `path`, or 0 when no step is routed there. */
  function CurrentStepIndex(path: string): (r: nat)
    ensures r <= |STEPS|
    ensures r == 0 <==> forall j :: 0 <= j < |STEPS| ==> STEPS[j].path != path
    ensures r != 0 ==> STEPS[r - 1].path == path
  {
    match Find(STEPS, path)
    case Some(i) => STEPS[i].id
    case None => 0
  }

  /** A step's position in the questionnaire: Landing is before the first step. */
  function Ordinal(st: Step): nat {
    match st
    case Landing => 0
    case ServiceHistoryStep => 1
    case HealthDisabilityStep => 2
    case SpecialStatusStep => 3
    case SummaryStep => 4
  }

  /** The progress bar puts every page at its own position, and the landing page at none. */
  lemma CurrentStepOfPage(st: Step)
    ensures CurrentStepIndex(Path(st)) == Ordinal(st)
  {
  }

  /** Any path outside the table, such as a mistyped address, has index 0. */
  lemma UnknownPathIsZero(path: string)
    requires StepAt(path).None?
    ensures CurrentStepIndex(path) == 0
  {
  }

  predicate IsCompleted(current: nat, id: nat) { current > id }
  predicate IsCurrent(current: nat, id: nat) { current == id }
  predicate IsUpcoming(current: nat, id: nat) { current < id }

  /** Each step is in exactly one of the three states. */
  lemma Trichotomy(current: nat, id: nat)
    ensures IsCompleted(current, id) || IsCurrent(current, id) || IsUpcoming(current, id)
    ensures !(IsCompleted(current, id) && IsCurrent(current, id))
    ensures !(IsCompleted(current, id) && IsUpcoming(current, id))
    ensures !(IsCurrent(current, id) && IsUpcoming(current, id))
  {
  }

  /**
   * The completed steps are exactly those listed before the current one, at
   * most one step is current, and with index 0 every step is upcoming.
   */
  lemma StatusesOfTable(current: nat)
    ensures forall i :: 0 <= i < |STEPS| ==> (IsCompleted(current, STEPS[i].id) <==> i + 1 < current)
    ensures forall i, j :: 0 <= i < j < |STEPS| ==> !(IsCurrent(current, STEPS[i].id) && IsCurrent(current, STEPS[j].id))
    ensures current == 0 ==> forall i :: 0 <= i < |STEPS| ==> IsUpcoming(current, STEPS[i].id)
  {
  }
}
