/**
 * The decision engine: six rules evaluated in a fixed order over the
 * aggregate, producing an eligible flag, an ordered list of reasons and a
 * priority tier (`calculateEligibility` in src/components/EligibilitySummary.jsx).
 */
module DecisionEngine {
  import opened AnswerStore

  /** The priority tiers; Label gives the string the summary shows. */
  datatype Priority = Standard | HighPriority | HighestPriority {
    function Rank(): nat {
      match this
      case Standard => 0
      case HighPriority => 1
      case HighestPriority => 2
    }

    function Label(): string {
      match this
      case Standard => "Standard"
      case HighPriority => "High Priority"
      case HighestPriority => "Highest Priority"
    }
  }

  /** The higher of two tiers. */
  function Max(p: Priority, q: Priority): Priority {
    if p.Rank() >= q.Rank() then p else q
  }

  /**
   * The six reasons the summary can list. Each rule of the engine is named
   * after the one reason it contributes; Text is the string it pushes.
   */
  datatype Reason =
    | QualifiedMilitaryService
    | ServiceConnectedDisability
    | CombatDecorationRecipient
    | FormerPrisonerOfWar
    | ServiceRelatedHealthCondition
    | CombatZoneDeployment
  {
    function Text(): string {
      match this
      case QualifiedMilitaryService => "Qualified military service"
      case ServiceConnectedDisability => "Service-connected disability"
      case CombatDecorationRecipient => "Combat decoration recipient"
      case FormerPrisonerOfWar => "Former Prisoner of War"
      case ServiceRelatedHealthCondition => "Service-related health condition"
      case CombatZoneDeployment => "Combat zone deployment"
    }
  }

  datatype Verdict = Verdict(isEligible: bool, eligibilityReasons: seq<Reason>, priorityLevel: Priority)

  /** The strings the summary lists for a sequence of reasons. */
  function Texts(rs: seq<Reason>): (r: seq<string>)
    ensures |r| == |rs|
    ensures forall i :: 0 <= i < |rs| ==> r[i] == rs[i].Text()
  {
    if rs == [] then [] else [rs[0].Text()] + Texts(rs[1..])
  }

  /** No two reasons share a text, so a list of texts names its reasons exactly. */
  lemma TextInjective(a: Reason, b: Reason)
    requires a.Text() == b.Text()
    ensures a == b
  {
  }

  // ---------------------------------------------------------------------
  // The rule table: the reference the imperative evaluator is proved against
  // ---------------------------------------------------------------------

  /** The rules in evaluation order, each named by its reason. */
  const RULES: seq<Reason> := [
    QualifiedMilitaryService, ServiceConnectedDisability, CombatDecorationRecipient,
    FormerPrisonerOfWar, ServiceRelatedHealthCondition, CombatZoneDeployment]

  /** The tier a rule implies when it fires. */
  function Tier(r: Reason): Priority {
    match r
    case ServiceConnectedDisability => HighPriority
    case CombatDecorationRecipient => HighestPriority
    case FormerPrisonerOfWar => HighestPriority
    case _ => Standard
  }

  /** The duty statuses that count as qualified military service. */
  predicate QualifyingDutyStatus(status: string) {
    status == "veteran" || status == "retired" || status == "active-duty"
  }

  /** When a rule fires on an aggregate. */
  predicate Fires(r: Reason, s: State) {
    match r
    case QualifiedMilitaryService => QualifyingDutyStatus(s.serviceHistory.activeDutyStatus)
    case ServiceConnectedDisability => s.healthDisability.hasServiceConnectedDisability
    case CombatDecorationRecipient => s.specialStatus.hasPurpleHeart || s.specialStatus.hasMedalOfHonor
    case FormerPrisonerOfWar => s.specialStatus.isFormerPOW
    case ServiceRelatedHealthCondition => s.healthDisability.hasInjury || s.healthDisability.hasPTSD
    case CombatZoneDeployment => s.specialStatus.hasCombatZoneDeployment
  }

  /** Whether some rule of `rules` fires. */
  predicate AnyFires(rules: seq<Reason>, s: State) {
    exists i :: 0 <= i < |rules| && Fires(rules[i], s)
  }

  /** What one rule adds to the list: its reason when it fires, nothing otherwise. */
  function Contribution(r: Reason, s: State): seq<Reason> {
    if Fires(r, s) then [r] else []
  }

  /** The reasons of the rules that fire, in the order of `rules`. */
  function FiredReasons(rules: seq<Reason>, s: State): seq<Reason> {
    if rules == [] then [] else Contribution(rules[0], s) + FiredReasons(rules[1..], s)
  }

  /** The highest tier any firing rule implies; Standard when none fires. */
  function HighestTier(rules: seq<Reason>, s: State): Priority {
    if rules == [] then Standard
    else Max(if Fires(rules[0], s) then Tier(rules[0]) else Standard, HighestTier(rules[1..], s))
  }

  /** `xs` can be obtained from `ys` by deleting elements. */
  predicate IsSubsequence(xs: seq<Reason>, ys: seq<Reason>)
    decreases |ys|
  {
    if xs == [] then true
    else if ys == [] then false
    else if xs[0] == ys[0] then IsSubsequence(xs[1..], ys[1..])
    else IsSubsequence(xs, ys[1..])
  }

  predicate Distinct(xs: seq<Reason>) {
    forall i, j :: 0 <= i < j < |xs| ==> xs[i] != xs[j]
  }

  // ---------------------------------------------------------------------
  // calculateEligibility
  // ---------------------------------------------------------------------

  /**
   * The evaluator as the summary page runs it: three locals, six `if`s in
   * the fixed order, each firing rule setting the flag and pushing its
   * reason, the priority overwritten by rules 2 to 4.
   */
  method CalculateEligibility(s: State) returns (v: Verdict)
    ensures v.eligibilityReasons == FiredReasons(RULES, s)
    ensures v.priorityLevel == HighestTier(RULES, s)
    ensures v.isEligible <==> AnyFires(RULES, s)
    ensures v.isEligible <==> v.eligibilityReasons != []
  {
    var isEligible := false;
    var eligibilityReasons: seq<Reason> := [];
    var priorityLevel := Standard;

    var status := s.serviceHistory.activeDutyStatus;
    if status == "veteran" || status == "retired" || status == "active-duty" {
      isEligible := true;
      eligibilityReasons := eligibilityReasons + [QualifiedMilitaryService];
    }
    ghost var c1 := Contribution(QualifiedMilitaryService, s);
    assert eligibilityReasons == c1;

    if s.healthDisability.hasServiceConnectedDisability {
      isEligible := true;
      priorityLevel := HighPriority;
      eligibilityReasons := eligibilityReasons + [ServiceConnectedDisability];
    }
    ghost var c2 := Contribution(ServiceConnectedDisability, s);
    assert eligibilityReasons == c1 + c2;

    if s.specialStatus.hasPurpleHeart || s.specialStatus.hasMedalOfHonor {
      isEligible := true;
      priorityLevel := HighestPriority;
      eligibilityReasons := eligibilityReasons + [CombatDecorationRecipient];
    }
    ghost var c3 := Contribution(CombatDecorationRecipient, s);
    assert eligibilityReasons == c1 + c2 + c3;

    if s.specialStatus.isFormerPOW {
      isEligible := true;
      priorityLevel := HighestPriority;
      eligibilityReasons := eligibilityReasons + [FormerPrisonerOfWar];
    }
    ghost var c4 := Contribution(FormerPrisonerOfWar, s);
    assert eligibilityReasons == c1 + c2 + c3 + c4;

    if s.healthDisability.hasInjury || s.healthDisability.hasPTSD {
      isEligible := true;
      eligibilityReasons := eligibilityReasons + [ServiceRelatedHealthCondition];
    }
    ghost var c5 := Contribution(ServiceRelatedHealthCondition, s);
    assert eligibilityReasons == c1 + c2 + c3 + c4 + c5;

    if s.specialStatus.hasCombatZoneDeployment {
      isEligible := true;
      eligibilityReasons := eligibilityReasons + [CombatZoneDeployment];
    }
    ghost var c6 := Contribution(CombatZoneDeployment, s);
    assert eligibilityReasons == c1 + c2 + c3 + c4 + c5 + c6;

    v := Verdict(isEligible, eligibilityReasons, priorityLevel);
    RulesUnfolded(s);
    Reassociate(c1, c2, c3, c4, c5, c6);
    EligibleIffReasons(RULES, s);
  }

  lemma Reassociate(a: seq<Reason>, b: seq<Reason>, c: seq<Reason>, d: seq<Reason>, e: seq<Reason>, f: seq<Reason>)
    ensures a + b + c + d + e + f == a + (b + (c + (d + (e + (f + [])))))
  {
  }

  // ---------------------------------------------------------------------
  // Properties of the rule table
  // ---------------------------------------------------------------------

  lemma FiredReasonsCons(r: Reason, rest: seq<Reason>, s: State)
    ensures FiredReasons([r] + rest, s) == Contribution(r, s) + FiredReasons(rest, s)
    ensures HighestTier([r] + rest, s) == Max(if Fires(r, s) then Tier(r) else Standard, HighestTier(rest, s))
  {
  }

  /** The rule table evaluated over its six entries. */
  lemma RulesUnfolded(s: State)
    ensures FiredReasons(RULES, s) ==
      Contribution(QualifiedMilitaryService, s) + (Contribution(ServiceConnectedDisability, s) +
      (Contribution(CombatDecorationRecipient, s) + (Contribution(FormerPrisonerOfWar, s) +
      (Contribution(ServiceRelatedHealthCondition, s) + (Contribution(CombatZoneDeployment, s) + [])))))
    ensures HighestTier(RULES, s) ==
      if Fires(CombatDecorationRecipient, s) || Fires(FormerPrisonerOfWar, s) then HighestPriority
      else if Fires(ServiceConnectedDisability, s) then HighPriority
      else Standard
  {
    var t5: seq<Reason> := [CombatZoneDeployment];
    var t4: seq<Reason> := [ServiceRelatedHealthCondition] + t5;
    var t3: seq<Reason> := [FormerPrisonerOfWar] + t4;
    var t2: seq<Reason> := [CombatDecorationRecipient] + t3;
    var t1: seq<Reason> := [ServiceConnectedDisability] + t2;
    assert [QualifiedMilitaryService] + t1 == RULES;
    assert t5 == [CombatZoneDeployment] + [];
    FiredReasonsCons(CombatZoneDeployment, [], s);
    FiredReasonsCons(ServiceRelatedHealthCondition, t5, s);
    FiredReasonsCons(FormerPrisonerOfWar, t4, s);
    FiredReasonsCons(CombatDecorationRecipient, t3, s);
    FiredReasonsCons(ServiceConnectedDisability, t2, s);
    FiredReasonsCons(QualifiedMilitaryService, t1, s);
  }

  /** A firing rule's reason is listed. */
  lemma {:induction false} FiringRuleListed(rules: seq<Reason>, s: State, i: nat)
    requires i < |rules| && Fires(rules[i], s)
    ensures rules[i] in FiredReasons(rules, s)
  {
    if i > 0 {
      assert rules[1..][i - 1] == rules[i];
      FiringRuleListed(rules[1..], s, i - 1);
    }
  }

  /** Some rule fires exactly when at least one reason is listed. */
  lemma {:induction false} EligibleIffReasons(rules: seq<Reason>, s: State)
    ensures AnyFires(rules, s) <==> FiredReasons(rules, s) != []
  {
    if rules != [] {
      EligibleIffReasons(rules[1..], s);
      if AnyFires(rules[1..], s) {
        var i :| 0 <= i < |rules[1..]| && Fires(rules[1..][i], s);
        assert Fires(rules[i + 1], s);
      }
      if AnyFires(rules, s) && !Fires(rules[0], s) {
        var i :| 0 <= i < |rules| && Fires(rules[i], s);
        assert Fires(rules[1..][i - 1], s);
      }
    }
  }

  /** The reasons keep the order of the rules that contribute them. */
  lemma {:induction false} ReasonsInRuleOrder(rules: seq<Reason>, s: State)
    ensures IsSubsequence(FiredReasons(rules, s), rules)
  {
    if rules != [] {
      ReasonsInRuleOrder(rules[1..], s);
      var head, tail := rules[0], FiredReasons(rules[1..], s);
      if Fires(head, s) {
        assert FiredReasons(rules, s) == [head] + tail;
        assert ([head] + tail)[1..] == tail;
      } else {
        assert FiredReasons(rules, s) == tail;
        SubsequenceOfLonger(tail, rules[1..], head);
        assert [head] + rules[1..] == rules;
      }
    }
  }

  lemma {:induction false} SubsequenceOfLonger(xs: seq<Reason>, ys: seq<Reason>, y: Reason)
    requires IsSubsequence(xs, ys)
    ensures IsSubsequence(xs, [y] + ys)
    decreases |ys|, 1
  {
    assert ([y] + ys)[1..] == ys;
    if xs != [] && xs[0] == y {
      SubsequenceDropHead(xs, ys);
    }
  }

  lemma {:induction false} SubsequenceDropHead(xs: seq<Reason>, ys: seq<Reason>)
    requires xs != [] && IsSubsequence(xs, ys)
    ensures IsSubsequence(xs[1..], ys)
    decreases |ys|, 0
  {
    assert [ys[0]] + ys[1..] == ys;
    if xs[0] == ys[0] {
      SubsequenceOfLonger(xs[1..], ys[1..], ys[0]);
    } else {
      SubsequenceDropHead(xs, ys[1..]);
      SubsequenceOfLonger(xs[1..], ys[1..], ys[0]);
    }
  }

  lemma {:induction false} SubsequenceNotLonger(xs: seq<Reason>, ys: seq<Reason>)
    requires IsSubsequence(xs, ys)
    ensures |xs| <= |ys|
    decreases |ys|
  {
    if xs != [] {
      if xs[0] == ys[0] {
        SubsequenceNotLonger(xs[1..], ys[1..]);
      } else {
        SubsequenceNotLonger(xs, ys[1..]);
      }
    }
  }

  lemma DistinctTail(xs: seq<Reason>)
    requires Distinct(xs) && xs != []
    ensures Distinct(xs[1..]) && xs[0] !in xs[1..]
  {
  }

  lemma DistinctCons(x: Reason, xs: seq<Reason>)
    requires Distinct(xs) && x !in xs
    ensures Distinct([x] + xs)
  {
  }

  /** A reason is listed exactly when its rule is in the table and fires. */
  lemma {:induction false} ListedIffFires(rules: seq<Reason>, s: State, r: Reason)
    ensures r in FiredReasons(rules, s) <==> r in rules && Fires(r, s)
  {
    if rules != [] {
      ListedIffFires(rules[1..], s, r);
      assert rules == [rules[0]] + rules[1..];
    }
  }

  /** A table of distinct rules lists each reason at most once. */
  lemma {:induction false} ReasonsDistinct(rules: seq<Reason>, s: State)
    requires Distinct(rules)
    ensures Distinct(FiredReasons(rules, s))
  {
    if rules != [] {
      DistinctTail(rules);
      ReasonsDistinct(rules[1..], s);
      if Fires(rules[0], s) {
        ListedIffFires(rules[1..], s, rules[0]);
        DistinctCons(rules[0], FiredReasons(rules[1..], s));
      } else {
        assert FiredReasons(rules, s) == FiredReasons(rules[1..], s);
      }
    }
  }

  /** A value that occurs in a sequence without repeats occurs exactly once. */
  lemma {:induction false} DistinctCountsOnce(xs: seq<Reason>, x: Reason)
    requires Distinct(xs) && x in xs
    ensures multiset(xs)[x] == 1
  {
    assert xs == [xs[0]] + xs[1..];
    DistinctTail(xs);
    if xs[0] == x {
      assert multiset(xs[1..])[x] == 0;
    } else {
      DistinctCountsOnce(xs[1..], x);
    }
  }

  /**
   * The reasons are the firing rules' reasons in rule order, each at most
   * once, so there are never more than six.
   */
  lemma ReasonsOrderedAndUnique(s: State)
    ensures IsSubsequence(FiredReasons(RULES, s), RULES)
    ensures Distinct(FiredReasons(RULES, s))
    ensures |FiredReasons(RULES, s)| <= 6
  {
    ReasonsInRuleOrder(RULES, s);
    ReasonsDistinct(RULES, s);
    SubsequenceNotLonger(FiredReasons(RULES, s), RULES);
  }

  /** "Combat decoration recipient" appears once whenever either decoration is held, even both. */
  lemma CombatDecorationListedOnce(s: State)
    requires s.specialStatus.hasPurpleHeart || s.specialStatus.hasMedalOfHonor
    ensures multiset(FiredReasons(RULES, s))[CombatDecorationRecipient] == 1
  {
    FiringRuleListed(RULES, s, 2);
    ReasonsDistinct(RULES, s);
    DistinctCountsOnce(FiredReasons(RULES, s), CombatDecorationRecipient);
  }

  /** Highest priority exactly when a decoration or prisoner-of-war status is held. */
  lemma HighestPriorityIff(s: State)
    ensures HighestTier(RULES, s) == HighestPriority <==>
      s.specialStatus.hasPurpleHeart || s.specialStatus.hasMedalOfHonor || s.specialStatus.isFormerPOW
  {
    RulesUnfolded(s);
  }

  /** High priority exactly when a service-connected disability is held and no highest trigger is. */
  lemma HighPriorityIff(s: State)
    ensures HighestTier(RULES, s) == HighPriority <==>
      s.healthDisability.hasServiceConnectedDisability &&
      !(s.specialStatus.hasPurpleHeart || s.specialStatus.hasMedalOfHonor || s.specialStatus.isFormerPOW)
  {
    RulesUnfolded(s);
  }

  /** Injury, PTSD and combat deployment never move the priority. */
  lemma HealthAndDeploymentKeepPriority(s: State, injury: bool, ptsd: bool, deployed: bool)
    ensures HighestTier(RULES, s) == HighestTier(RULES, s.(
      healthDisability := s.healthDisability.(hasInjury := injury, hasPTSD := ptsd),
      specialStatus := s.specialStatus.(hasCombatZoneDeployment := deployed)))
  {
    RulesUnfolded(s);
    RulesUnfolded(s.(
      healthDisability := s.healthDisability.(hasInjury := injury, hasPTSD := ptsd),
      specialStatus := s.specialStatus.(hasCombatZoneDeployment := deployed)));
  }

  /** Only veteran, retired and active-duty statuses qualify; national guard, reserves and unset do not. */
  lemma ServiceRuleStatuses()
    ensures QualifyingDutyStatus("veteran") && QualifyingDutyStatus("retired") && QualifyingDutyStatus("active-duty")
    ensures !QualifyingDutyStatus("national-guard") && !QualifyingDutyStatus("reserves") && !QualifyingDutyStatus("")
  {
  }

  /** The untouched questionnaire: not eligible, no reasons, standard priority. */
  lemma DefaultVerdict()
    ensures !AnyFires(RULES, INITIAL_STATE)
    ensures FiredReasons(RULES, INITIAL_STATE) == []
    ensures HighestTier(RULES, INITIAL_STATE) == Standard
  {
  }

  /** A veteran with nothing else recorded: eligible on service alone, at standard priority. */
  lemma VeteranOnly(s: State)
    requires s == INITIAL_STATE.(serviceHistory := INITIAL_STATE.serviceHistory.(activeDutyStatus := "veteran"))
    ensures Texts(FiredReasons(RULES, s)) == ["Qualified military service"]
    ensures HighestTier(RULES, s) == Standard
  {
  }

  /** A veteran with a service-connected disability: both reasons in rule order, high priority. */
  lemma VeteranWithDisability(s: State)
    requires s == INITIAL_STATE.(
      serviceHistory := INITIAL_STATE.serviceHistory.(activeDutyStatus := "veteran"),
      healthDisability := INITIAL_STATE.healthDisability.(hasServiceConnectedDisability := true))
    ensures Texts(FiredReasons(RULES, s)) == ["Qualified military service", "Service-connected disability"]
    ensures HighestTier(RULES, s) == HighPriority
  {
  }

  /** A Purple Heart outranks a service-connected disability; both reasons are listed in rule order. */
  lemma PurpleHeartWithDisability(s: State)
    requires s == INITIAL_STATE.(
      healthDisability := INITIAL_STATE.healthDisability.(hasServiceConnectedDisability := true),
      specialStatus := INITIAL_STATE.specialStatus.(hasPurpleHeart := true))
    ensures Texts(FiredReasons(RULES, s)) == ["Service-connected disability", "Combat decoration recipient"]
    ensures HighestTier(RULES, s) == HighestPriority
  {
  }
}
