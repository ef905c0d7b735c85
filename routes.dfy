/** The five pages of the questionnaire and the paths they are routed at (src/App.jsx). */
module Routes {
  import opened Wrappers

  datatype Step = Landing | ServiceHistoryStep | HealthDisabilityStep | SpecialStatusStep | SummaryStep

  /** The path a step is routed at. */
  function Path(st: Step): string {
    match st
    case Landing => "/"
    case ServiceHistoryStep => "/service-history"
    case HealthDisabilityStep => "/health-disability"
    case SpecialStatusStep => "/special-status"
    case SummaryStep => "/eligibility-summary"
  }

  /** The step routed at `path`, if any: the inverse of Path. */
  function StepAt(path: string): (r: Option<Step>)
    ensures r.Some? ==> Path(r.value) == path
    ensures r.None? ==> forall st :: Path(st) != path
  {
    if path == "/" then Some(Landing)
    else if path == "/service-history" then Some(ServiceHistoryStep)
    else if path == "/health-disability" then Some(HealthDisabilityStep)
    else if path == "/special-status" then Some(SpecialStatusStep)
    else if path == "/eligibility-summary" then Some(SummaryStep)
    else None
  }

  /** Every step is found again at its own path, so no two steps share a path. */
  lemma StepAtPath(st: Step)
    ensures StepAt(Path(st)) == Some(st)
  {
  }
}
