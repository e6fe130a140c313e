/** The score arithmetic of planning drafts, over the reals. */
module Scoring {
  // ----- clamps and rounding -----

  function ClampUnit(value: real): real {
    if value < 0.0 then 0.0 else if value > 1.0 then 1.0 else value
  }

  function ClampPercentage(value: real): real {
    if value < 0.0 then 0.0 else if value > 100.0 then 100.0 else value
  }

  function Min(a: real, b: real): real {
    if a < b then a else b
  }

  /** math.Round: to the nearest integer, halves away from zero. */
  function Round(value: real): int {
    if value >= 0.0 then (value + 0.5).Floor else -((0.5 - value).Floor)
  }

  function RoundTenth(value: real): real {
    Round(value * 10.0) as real / 10.0
  }

  /** A whole number of tenths. */
  ghost predicate IsTenth(value: real) {
    exists tenths: int :: IsTenths(value, tenths)
  }

  predicate IsTenths(value: real, tenths: int) {
    value == tenths as real / 10.0
  }

  lemma FloorBetween(value: real, n: int)
    requires n as real <= value < (n + 1) as real
    ensures value.Floor == n
  {
  }

  lemma RoundOfInteger(n: int)
    ensures Round(n as real) == n
  {
    if n >= 0 {
      FloorBetween(n as real + 0.5, n);
    } else {
      FloorBetween(0.5 - n as real, -n);
    }
  }

  /** Rounding to tenths gives tenths, within half a tenth. */
  lemma RoundTenthIsNear(value: real)
    ensures IsTenth(RoundTenth(value)) && value - 0.05 <= RoundTenth(value) <= value + 0.05
  {
    assert IsTenths(RoundTenth(value), Round(value * 10.0));
  }

  /** A second rounding changes nothing. */
  lemma RoundTenthKeeps(value: real)
    requires IsTenth(value)
    ensures RoundTenth(value) == value
  {
    var tenths :| IsTenths(value, tenths);
    assert value * 10.0 == tenths as real;
    RoundOfInteger(tenths);
  }

  lemma RoundIsMonotone(a: real, b: real)
    requires a <= b
    ensures Round(a) <= Round(b)
  {
  }

  lemma RoundTenthIsMonotone(a: real, b: real)
    requires a <= b
    ensures RoundTenth(a) <= RoundTenth(b)
  {
    RoundIsMonotone(a * 10.0, b * 10.0);
    DivideByTen(Round(a * 10.0), Round(b * 10.0));
  }

  lemma DivideByTen(m: int, n: int)
    requires m <= n
    ensures m as real / 10.0 <= n as real / 10.0
  {
  }

  // ----- scores -----

  datatype Factors = Factors(impact: real, urgency: real, dependencyUnlock: real, riskReduction: real, effort: real,
                             confidence: real, duplicatePenalty: real)

  function WeightedScore(factors: Factors): real {
    0.30 * factors.impact + 0.25 * ClampUnit(factors.urgency) + 0.20 * factors.dependencyUnlock
    + 0.15 * factors.riskReduction + 0.10 * ClampUnit(factors.confidence - factors.duplicatePenalty) - 0.15 * factors.effort
  }

  function WeightedPriorityScore(factors: Factors): real {
    RoundTenth(ClampPercentage(WeightedScore(factors) * 100.0))
  }

  function ConfidenceSeed(seed: real): real {
    RoundTenth(ClampPercentage(seed * 100.0))
  }

  function EvidenceBonus(evidence: nat): real {
    Min(evidence as real * 1.8, 6.0)
  }

  function DuplicateCost(duplicates: nat): real {
    duplicates as real * 6.5
  }

  function ComputePriorityScore(evidence: nat, duplicates: nat, seed: real): real {
    RoundTenth(ClampPercentage(seed + EvidenceBonus(evidence) - DuplicateCost(duplicates)))
  }

  function ComputeConfidence(seed: real, evidence: nat, duplicates: nat): real {
    RoundTenth(ClampPercentage(seed + Min(evidence as real * 2.5, 10.0) - duplicates as real * 9.0))
  }

  function DuplicatePenalty(duplicates: nat): real {
    if duplicates == 0 then 0.0 else ClampUnit(0.10 + (duplicates - 1) as real * 0.03)
  }

  /** What a reader of the draft is shown. */
  datatype Breakdown = Breakdown(impact: real, urgency: real, dependencyUnlock: real, riskReduction: real, effort: real,
                                 confidenceSeed: real, evidenceBonus: real, duplicatePenalty: real,
                                 finalPriority: real, finalConfidence: real)

  function BuildBreakdown(factors: Factors, evidence: nat, duplicates: nat, priority: real, confidence: real): Breakdown {
    Breakdown(ConfidenceSeed(factors.impact), ConfidenceSeed(factors.urgency), ConfidenceSeed(factors.dependencyUnlock),
              ConfidenceSeed(factors.riskReduction), ConfidenceSeed(factors.effort), ConfidenceSeed(factors.confidence),
              RoundTenth(EvidenceBonus(evidence)), RoundTenth(DuplicateCost(duplicates)), priority, confidence)
  }

  lemma BonusAndCostAreTenths(evidence: nat, duplicates: nat)
    ensures IsTenth(EvidenceBonus(evidence)) && IsTenth(DuplicateCost(duplicates))
  {
    assert IsTenths(DuplicateCost(duplicates), 65 * duplicates);
    if evidence as real * 1.8 < 6.0 {
      assert IsTenths(EvidenceBonus(evidence), 18 * evidence);
    } else {
      assert IsTenths(EvidenceBonus(evidence), 60);
    }
  }

  lemma ClampOfTenth(value: real)
    requires IsTenth(value)
    ensures IsTenth(ClampPercentage(value))
  {
    assert IsTenths(0.0, 0) && IsTenths(100.0, 1000);
  }

  lemma SumOfTenths(a: real, b: real, c: real)
    requires IsTenth(a) && IsTenth(b) && IsTenth(c)
    ensures IsTenth(a + b - c)
  {
    var i :| IsTenths(a, i);
    var j :| IsTenths(b, j);
    var k :| IsTenths(c, k);
    assert IsTenths(a + b - c, i + j - k);
  }

  /** The final priority is exactly the seed plus the bonus shown minus the penalty shown, clamped: rounding it once
      more changes nothing, and neither does rounding what is shown. */
  lemma PriorityIsWhatIsShown(factors: Factors, evidence: nat, duplicates: nat, confidence: real)
    ensures var seed := WeightedPriorityScore(factors);
            var priority := ComputePriorityScore(evidence, duplicates, seed);
            var shown := BuildBreakdown(factors, evidence, duplicates, priority, confidence);
            && shown.evidenceBonus == EvidenceBonus(evidence) && shown.duplicatePenalty == DuplicateCost(duplicates)
            && priority == ClampPercentage(seed + shown.evidenceBonus - shown.duplicatePenalty)
            && 0.0 <= priority <= 100.0 && IsTenth(priority)
  {
    var seed := WeightedPriorityScore(factors);
    BonusAndCostAreTenths(evidence, duplicates);
    RoundTenthKeeps(EvidenceBonus(evidence));
    RoundTenthKeeps(DuplicateCost(duplicates));
    RoundTenthIsNear(ClampPercentage(WeightedScore(factors) * 100.0));
    SumOfTenths(seed, EvidenceBonus(evidence), DuplicateCost(duplicates));
    ClampOfTenth(seed + EvidenceBonus(evidence) - DuplicateCost(duplicates));
    RoundTenthKeeps(ClampPercentage(seed + EvidenceBonus(evidence) - DuplicateCost(duplicates)));
  }

  lemma ClampIsMonotone(a: real, b: real)
    requires a <= b
    ensures ClampPercentage(a) <= ClampPercentage(b) && ClampUnit(a) <= ClampUnit(b)
  {
  }

  lemma TimesIsMonotone(m: nat, n: nat, c: real)
    requires m <= n && c >= 0.0
    ensures m as real * c <= n as real * c
  {
  }

  /** No less evidence; one line may be missing where there are fewer duplicates, because a list of duplicates is
      itself a line of evidence. */
  predicate EnoughEvidence(evidence: nat, evidence': nat, duplicates: nat, duplicates': nat) {
    duplicates' <= duplicates && evidence <= evidence' + if duplicates' < duplicates then 1 else 0
  }

  /** What the missing line was worth is less than what a duplicate costs. */
  lemma GainAgainstCost(gain: real, gain': real, spent: real, spent': real, bonus: real, most: real, cost: real)
    requires (gain <= gain' && spent' <= spent) || (gain <= gain' + bonus && spent' + cost <= spent)
    requires 0.0 <= bonus <= cost
    ensures Min(gain, most) - spent <= Min(gain', most) - spent'
  {
  }

  lemma RoundedClampIsMonotone(a: real, b: real)
    requires a <= b
    ensures RoundTenth(ClampPercentage(a)) <= RoundTenth(ClampPercentage(b))
  {
    ClampIsMonotone(a, b);
    RoundTenthIsMonotone(ClampPercentage(a), ClampPercentage(b));
  }

  /** More evidence never lowers priority or confidence, more duplicates never raise them. */
  lemma EvidenceRaisesDuplicatesLower(seed: real, seed': real, evidence: nat, evidence': nat, duplicates: nat, duplicates': nat)
    requires seed <= seed' && EnoughEvidence(evidence, evidence', duplicates, duplicates')
    ensures ComputePriorityScore(evidence, duplicates, seed) <= ComputePriorityScore(evidence', duplicates', seed')
    ensures ComputeConfidence(seed, evidence, duplicates) <= ComputeConfidence(seed', evidence', duplicates')
  {
    GainAgainstCost(evidence as real * 1.8, evidence' as real * 1.8, DuplicateCost(duplicates), DuplicateCost(duplicates'), 1.8, 6.0, 6.5);
    RoundedClampIsMonotone(seed + EvidenceBonus(evidence) - DuplicateCost(duplicates),
                           seed' + EvidenceBonus(evidence') - DuplicateCost(duplicates'));
    GainAgainstCost(evidence as real * 2.5, evidence' as real * 2.5, duplicates as real * 9.0, duplicates' as real * 9.0, 2.5, 10.0, 9.0);
    RoundedClampIsMonotone(seed + Min(evidence as real * 2.5, 10.0) - duplicates as real * 9.0,
                           seed' + Min(evidence' as real * 2.5, 10.0) - duplicates' as real * 9.0);
  }

  /** `better` is no worse in any factor. */
  predicate NoWorse(factors: Factors, better: Factors) {
    && factors.impact <= better.impact && factors.urgency <= better.urgency
    && factors.dependencyUnlock <= better.dependencyUnlock && factors.riskReduction <= better.riskReduction
    && factors.effort >= better.effort && factors.confidence <= better.confidence
    && factors.duplicatePenalty >= better.duplicatePenalty
  }

  lemma WeightedScoreIsMonotone(factors: Factors, better: Factors)
    requires NoWorse(factors, better)
    ensures WeightedPriorityScore(factors) <= WeightedPriorityScore(better)
  {
    ClampIsMonotone(factors.urgency, better.urgency);
    ClampIsMonotone(factors.confidence - factors.duplicatePenalty, better.confidence - better.duplicatePenalty);
    assert WeightedScore(factors) <= WeightedScore(better);
    ClampIsMonotone(WeightedScore(factors) * 100.0, WeightedScore(better) * 100.0);
    RoundTenthIsMonotone(ClampPercentage(WeightedScore(factors) * 100.0), ClampPercentage(WeightedScore(better) * 100.0));
  }

  predicate InUnit(factors: Factors) {
    && 0.0 <= factors.impact <= 1.0 && 0.0 <= factors.urgency <= 1.0 && 0.0 <= factors.dependencyUnlock <= 1.0
    && 0.0 <= factors.riskReduction <= 1.0 && 0.0 <= factors.effort <= 1.0
    && 0.0 <= factors.confidence - factors.duplicatePenalty <= 1.0
  }

  /** What counts more: moving the same amount from confidence to risk reduction, from there to what is unlocked, on
      to urgency and on to impact raises the score each time; effort takes what the same risk reduction gives. */
  lemma WeightOrder(factors: Factors, d: real)
    requires d > 0.0 && InUnit(factors)
    ensures factors.urgency >= d ==>
              WeightedScore(factors) < WeightedScore(factors.(impact := factors.impact + d, urgency := factors.urgency - d))
    ensures factors.urgency + d <= 1.0 ==>
              WeightedScore(factors) < WeightedScore(factors.(urgency := factors.urgency + d, dependencyUnlock := factors.dependencyUnlock - d))
    ensures WeightedScore(factors) <
            WeightedScore(factors.(dependencyUnlock := factors.dependencyUnlock + d, riskReduction := factors.riskReduction - d))
    ensures factors.confidence - factors.duplicatePenalty >= d ==>
              WeightedScore(factors) < WeightedScore(factors.(riskReduction := factors.riskReduction + d, confidence := factors.confidence - d))
    ensures WeightedScore(factors) == WeightedScore(factors.(riskReduction := factors.riskReduction + d, effort := factors.effort + d))
  {
  }

  lemma DuplicatePenaltyIsMonotone(m: nat, n: nat)
    requires m <= n
    ensures DuplicatePenalty(m) <= DuplicatePenalty(n)
  {
    if m > 0 {
      TimesIsMonotone(m - 1, n - 1, 0.03);
      ClampIsMonotone(0.10 + (m - 1) as real * 0.03, 0.10 + (n - 1) as real * 0.03);
    }
  }

  // ----- the factors of a generated candidate -----

  datatype Kind = Implementation | Integration | Validation

  /** What the planning context contributes besides the open tasks: related and stale documents and so on. */
  datatype Facts = Facts(urgency: real, relatedDocuments: bool, staleDocuments: bool,
                         syncFailed: bool, recentFailures: bool, highSeverityDrift: bool)

  function DependencyUnlock(facts: Facts, openTasks: bool, documents: bool, base: real): real {
    ClampUnit(base + (if openTasks then 0.04 else 0.0) + (if documents then 0.06 else 0.0)
              - (if facts.syncFailed then 0.03 else 0.0))
  }

  function OrderBonus(index: nat): real {
    ClampUnit(0.03 - index as real * 0.01)
  }

  function FactorsOf(kind: Kind, index: nat, facts: Facts, openTasks: bool, duplicates: nat): Factors {
    var bonus, penalty := OrderBonus(index), DuplicatePenalty(duplicates);
    match kind
    case Integration =>
      Factors(0.76 + bonus, ClampUnit(facts.urgency + 0.02), DependencyUnlock(facts, openTasks, facts.relatedDocuments, 0.79), 0.57, 0.48,
              0.69 + bonus, penalty)
    case Validation =>
      var failing, ageing := facts.syncFailed || facts.recentFailures, facts.highSeverityDrift || facts.staleDocuments;
      var urgency, risk, confidence := ClampUnit(facts.urgency - 0.03), 0.76, 0.65 + bonus;
      var urgency1, risk1, confidence1 :=
        if failing then ClampUnit(urgency + 0.12) else urgency,
        if failing then ClampUnit(risk + 0.12) else risk,
        if failing then ClampUnit(confidence + 0.08) else confidence;
      var urgency2, risk2, confidence2 :=
        if ageing then ClampUnit(urgency1 + 0.08) else urgency1,
        if ageing then ClampUnit(risk1 + 0.08) else risk1,
        if ageing then ClampUnit(confidence1 + 0.06) else confidence1;
      Factors(0.63 + bonus, urgency2, DependencyUnlock(facts, openTasks, facts.staleDocuments, 0.46), risk2, 0.39, confidence2, penalty)
    case Implementation =>
      var confidence, risk := 0.72 + bonus, 0.46;
      Factors(0.88 + bonus, facts.urgency, DependencyUnlock(facts, openTasks, facts.relatedDocuments, 0.60),
              if facts.relatedDocuments then ClampUnit(risk + 0.05) else risk, 0.54,
              if facts.relatedDocuments then ClampUnit(confidence + 0.04) else confidence, penalty)
  }

  function FinalPriority(kind: Kind, index: nat, facts: Facts, openTasks: bool, evidence: nat, duplicates: nat): real {
    ComputePriorityScore(evidence, duplicates, WeightedPriorityScore(FactorsOf(kind, index, facts, openTasks, duplicates)))
  }

  lemma OrderBonusFalls(index: nat, later: nat)
    requires index <= later
    ensures OrderBonus(later) <= OrderBonus(index)
  {
    TimesIsMonotone(index, later, 0.01);
    ClampIsMonotone(0.03 - later as real * 0.01, 0.03 - index as real * 0.01);
  }

  /** No worse but for what open tasks do for the dependency unlock. */
  predicate NearlyNoWorse(factors: Factors, better: Factors) {
    factors.dependencyUnlock <= better.dependencyUnlock + 0.04
    && NoWorse(factors.(dependencyUnlock := better.dependencyUnlock), better)
  }

  lemma FactorsNoWorse(kind: Kind, index: nat, later: nat, facts: Facts, openTasks: bool, openTasks': bool,
                       duplicates: nat, duplicates': nat)
    requires index <= later && duplicates' <= duplicates
    ensures var factors, better := FactorsOf(kind, later, facts, openTasks, duplicates), FactorsOf(kind, index, facts, openTasks', duplicates');
            NearlyNoWorse(factors, better) && ((openTasks ==> openTasks') ==> NoWorse(factors, better))
  {
    OrderBonusFalls(index, later);
    DuplicatePenaltyIsMonotone(duplicates', duplicates);
    UnlockNearlyKept(facts, openTasks, openTasks', facts.relatedDocuments, 0.79);
    UnlockNearlyKept(facts, openTasks, openTasks', facts.staleDocuments, 0.46);
    UnlockNearlyKept(facts, openTasks, openTasks', facts.relatedDocuments, 0.60);
  }

  lemma UnlockNearlyKept(facts: Facts, openTasks: bool, openTasks': bool, documents: bool, base: real)
    ensures DependencyUnlock(facts, openTasks, documents, base) <= DependencyUnlock(facts, openTasks', documents, base) + 0.04
    ensures (openTasks ==> openTasks') ==>
              DependencyUnlock(facts, openTasks, documents, base) <= DependencyUnlock(facts, openTasks', documents, base)
  {
  }

  /** Without open tasks the seed loses less than a point. */
  lemma SeedNearlyKept(factors: Factors, better: Factors)
    requires NearlyNoWorse(factors, better)
    ensures WeightedPriorityScore(factors) <= WeightedPriorityScore(better) + 0.9
  {
    var level := factors.(dependencyUnlock := better.dependencyUnlock);
    WeightedScoreIsMonotone(level, better);
    assert WeightedScore(factors) <= WeightedScore(level) + 0.008;
    var a, b := WeightedScore(factors) * 100.0, WeightedScore(level) * 100.0;
    assert ClampPercentage(a) <= ClampPercentage(b) + 0.8;
    RoundTenthIsNear(ClampPercentage(a));
    RoundTenthIsNear(ClampPercentage(b));
  }

  /** A duplicate costs more than the open tasks and a line of evidence together are worth. */
  lemma FewerDuplicatesOutweigh(seed: real, seed': real, evidence: nat, evidence': nat, duplicates: nat, duplicates': nat)
    requires seed <= seed' + 0.9 && duplicates' < duplicates && evidence <= evidence' + 1
    ensures ComputePriorityScore(evidence, duplicates, seed) <= ComputePriorityScore(evidence', duplicates', seed')
  {
    GainAgainstCost(evidence as real * 1.8, evidence' as real * 1.8, DuplicateCost(duplicates) - 4.7, DuplicateCost(duplicates'), 1.8, 6.0, 1.8);
    RoundedClampIsMonotone(seed + EvidenceBonus(evidence) - DuplicateCost(duplicates),
                           seed' + EvidenceBonus(evidence') - DuplicateCost(duplicates'));
  }

  /** From end to end, over both places that count duplicates and the one that asks for open tasks: a candidate of the
      same kind in the same context ranks no lower when it comes earlier, has no more duplicates, no less evidence and
      open tasks if there were any; or when it has fewer duplicates, whatever becomes of the open tasks and of one line
      of evidence. */
  lemma FinalPriorityIsMonotone(kind: Kind, index: nat, later: nat, facts: Facts, openTasks: bool, openTasks': bool,
                                evidence: nat, evidence': nat, duplicates: nat, duplicates': nat)
    requires index <= later && EnoughEvidence(evidence, evidence', duplicates, duplicates')
    requires duplicates' == duplicates && openTasks ==> openTasks'
    ensures FinalPriority(kind, later, facts, openTasks, evidence, duplicates) <=
            FinalPriority(kind, index, facts, openTasks', evidence', duplicates')
  {
    var factors, better := FactorsOf(kind, later, facts, openTasks, duplicates), FactorsOf(kind, index, facts, openTasks', duplicates');
    FactorsNoWorse(kind, index, later, facts, openTasks, openTasks', duplicates, duplicates');
    if duplicates' < duplicates {
      SeedNearlyKept(factors, better);
      FewerDuplicatesOutweigh(WeightedPriorityScore(factors), WeightedPriorityScore(better), evidence, evidence', duplicates, duplicates');
    } else {
      WeightedScoreIsMonotone(factors, better);
      EvidenceRaisesDuplicatesLower(WeightedPriorityScore(factors), WeightedPriorityScore(better),
                                    evidence, evidence', duplicates, duplicates');
    }
  }

  // ----- points -----

  /** Moving one mark by d moves the score by its weight: 30 points for impact, 25 for urgency, 20 for what is unlocked, 15
      for risk reduction and 10 for confidence, 15 off for effort; where no clamp acts. */
  lemma MarksInPoints(factors: Factors, d: real)
    requires InUnit(factors) && 0.0 <= d
    ensures var points := WeightedScore(factors) * 100.0;
            && WeightedScore(factors.(impact := factors.impact + d)) * 100.0 == points + 30.0 * d
            && (factors.urgency + d <= 1.0 ==> WeightedScore(factors.(urgency := factors.urgency + d)) * 100.0 == points + 25.0 * d)
            && WeightedScore(factors.(dependencyUnlock := factors.dependencyUnlock + d)) * 100.0 == points + 20.0 * d
            && WeightedScore(factors.(riskReduction := factors.riskReduction + d)) * 100.0 == points + 15.0 * d
            && (factors.confidence - factors.duplicatePenalty + d <= 1.0 ==>
                  WeightedScore(factors.(confidence := factors.confidence + d)) * 100.0 == points + 10.0 * d)
            && WeightedScore(factors.(effort := factors.effort + d)) * 100.0 == points - 15.0 * d
  {
  }

  /** Points are shown in tenths, as near as tenths can be, between 0 and 100. */
  ghost predicate Shows(shown: real, points: real) {
    && IsTenth(shown) && 0.0 <= shown <= 100.0
    && (0.0 <= points <= 100.0 ==> points - 0.05 <= shown <= points + 0.05)
    && (points < 0.0 ==> shown == 0.0) && (points > 100.0 ==> shown == 100.0)
  }

  lemma SeedShows(seed: real)
    ensures Shows(ConfidenceSeed(seed), seed * 100.0)
  {
    RoundTenthIsNear(ClampPercentage(seed * 100.0));
    assert IsTenths(0.0, 0) && IsTenths(100.0, 1000);
    RoundTenthKeeps(0.0);
    RoundTenthKeeps(100.0);
    RoundTenthIsMonotone(0.0, ClampPercentage(seed * 100.0));
    RoundTenthIsMonotone(ClampPercentage(seed * 100.0), 100.0);
  }

  lemma BonusShows(evidence: nat)
    ensures RoundTenth(EvidenceBonus(evidence)) == if evidence <= 3 then evidence as real * 1.8 else 6.0
  {
    BonusAndCostAreTenths(evidence, 0);
    RoundTenthKeeps(EvidenceBonus(evidence));
    if evidence > 3 {
      TimesIsMonotone(4, evidence, 1.8);
    } else {
      TimesIsMonotone(evidence, 3, 1.8);
    }
  }

  lemma CostShows(duplicates: nat)
    ensures RoundTenth(DuplicateCost(duplicates)) == duplicates as real * 6.5
  {
    BonusAndCostAreTenths(0, duplicates);
    RoundTenthKeeps(DuplicateCost(duplicates));
  }

  /** The six marks in percent, each in its own place. */
  ghost predicate ShowsMarks(shown: Breakdown, factors: Factors) {
    && Shows(shown.impact, factors.impact * 100.0) && Shows(shown.urgency, factors.urgency * 100.0)
    && Shows(shown.dependencyUnlock, factors.dependencyUnlock * 100.0) && Shows(shown.riskReduction, factors.riskReduction * 100.0)
    && Shows(shown.effort, factors.effort * 100.0) && Shows(shown.confidenceSeed, factors.confidence * 100.0)
  }

  /** The breakdown shows the marks, the bonus, the penalty and the two results. */
  lemma BreakdownShowsMarks(factors: Factors, evidence: nat, duplicates: nat, priority: real, confidence: real)
    ensures var shown := BuildBreakdown(factors, evidence, duplicates, priority, confidence);
            && ShowsMarks(shown, factors)
            && shown.evidenceBonus == (if evidence <= 3 then evidence as real * 1.8 else 6.0)
            && shown.duplicatePenalty == duplicates as real * 6.5
            && shown.finalPriority == priority && shown.finalConfidence == confidence
  {
    BonusShows(evidence);
    CostShows(duplicates);
    MarksShow(BuildBreakdown(factors, evidence, duplicates, priority, confidence), factors);
  }

  lemma MarksShow(shown: Breakdown, factors: Factors)
    requires shown.impact == ConfidenceSeed(factors.impact) && shown.urgency == ConfidenceSeed(factors.urgency)
    requires shown.dependencyUnlock == ConfidenceSeed(factors.dependencyUnlock)
    requires shown.riskReduction == ConfidenceSeed(factors.riskReduction) && shown.effort == ConfidenceSeed(factors.effort)
    requires shown.confidenceSeed == ConfidenceSeed(factors.confidence)
    ensures ShowsMarks(shown, factors)
  {
    SeedShows(factors.impact);
    SeedShows(factors.urgency);
    SeedShows(factors.dependencyUnlock);
    SeedShows(factors.riskReduction);
    SeedShows(factors.effort);
    SeedShows(factors.confidence);
  }

  lemma ConfidenceBonus(evidence: nat)
    ensures Min(evidence as real * 2.5, 10.0) == if evidence <= 4 then evidence as real * 2.5 else 10.0
    ensures IsTenth(Min(evidence as real * 2.5, 10.0))
  {
    if evidence > 4 {
      TimesIsMonotone(5, evidence, 2.5);
      assert IsTenths(10.0, 100);
    } else {
      TimesIsMonotone(evidence, 4, 2.5);
      assert IsTenths(evidence as real * 2.5, 25 * evidence);
    }
  }

  lemma ExactInTenths(begun: real, bonus: real, cost: real)
    requires IsTenth(begun) && IsTenth(bonus) && IsTenth(cost)
    ensures RoundTenth(ClampPercentage(begun + bonus - cost)) == ClampPercentage(begun + bonus - cost)
  {
    SumOfTenths(begun, bonus, cost);
    ClampOfTenth(begun + bonus - cost);
    RoundTenthKeeps(ClampPercentage(begun + bonus - cost));
  }

  /** The confidence shown is the seed and two and a half points for each of up to four lines of evidence, less nine for
      each duplicate, between 0 and 100; rounding changes nothing. */
  lemma ConfidenceIsExact(seed: real, evidence: nat, duplicates: nat)
    ensures var begun := ConfidenceSeed(seed);
            ComputeConfidence(begun, evidence, duplicates) ==
            ClampPercentage(begun + (if evidence <= 4 then evidence as real * 2.5 else 10.0) - duplicates as real * 9.0)
  {
    RoundTenthIsNear(ClampPercentage(seed * 100.0));
    ConfidenceBonus(evidence);
    assert IsTenths(duplicates as real * 9.0, 90 * duplicates);
    ExactInTenths(ConfidenceSeed(seed), Min(evidence as real * 2.5, 10.0), duplicates as real * 9.0);
  }

  /** The first duplicate costs ten hundredths of confidence and each further one three, until nothing is left. */
  lemma PenaltyIs(duplicates: nat)
    ensures DuplicatePenalty(0) == 0.0
    ensures 1 <= duplicates <= 31 ==> DuplicatePenalty(duplicates) == 0.10 + (duplicates - 1) as real * 0.03
    ensures duplicates > 31 ==> DuplicatePenalty(duplicates) == 1.0
  {
    if duplicates > 31 {
      TimesIsMonotone(31, duplicates - 1, 0.03);
    } else if duplicates > 0 {
      TimesIsMonotone(duplicates - 1, 30, 0.03);
    }
  }

  // ----- the kinds -----

  /** In the same place and context each kind leads where it is meant to: implementation in impact, integration in what
      it unlocks, validation in risk reduction and little effort. */
  lemma KindsLead(index: nat, facts: Facts, openTasks: bool, duplicates: nat)
    requires 0.0 <= facts.urgency <= 1.0
    ensures var a, b, c := FactorsOf(Implementation, index, facts, openTasks, duplicates),
                           FactorsOf(Integration, index, facts, openTasks, duplicates), FactorsOf(Validation, index, facts, openTasks, duplicates);
            && a.impact > b.impact > c.impact && a.effort > b.effort > c.effort
            && c.riskReduction > b.riskReduction > a.riskReduction
            && b.dependencyUnlock > a.dependencyUnlock && (facts.relatedDocuments == facts.staleDocuments ==> a.dependencyUnlock > c.dependencyUnlock)
            && b.urgency >= a.urgency && a.confidence > b.confidence
            && a.duplicatePenalty == b.duplicatePenalty == c.duplicatePenalty
  {
  }

  /** What has failed or aged makes validating more urgent, more useful and surer, and related documents make implementing
      surer and less risky. */
  lemma ContextHelps(index: nat, facts: Facts, openTasks: bool, duplicates: nat)
    requires 0.0 <= facts.urgency <= 1.0
    ensures var calm := facts.(syncFailed := false, recentFailures := false, highSeverityDrift := false, staleDocuments := false);
            && (facts != calm ==>
                  var c, quiet := FactorsOf(Validation, index, facts, openTasks, duplicates), FactorsOf(Validation, index, calm, openTasks, duplicates);
                  c.riskReduction > quiet.riskReduction && c.confidence > quiet.confidence && c.urgency >= quiet.urgency)
            && (facts.relatedDocuments ==>
                  var a, alone := FactorsOf(Implementation, index, facts, openTasks, duplicates),
                                  FactorsOf(Implementation, index, facts.(relatedDocuments := false), openTasks, duplicates);
                  a.riskReduction > alone.riskReduction && a.confidence > alone.confidence && a.dependencyUnlock > alone.dependencyUnlock)
  {
  }

  /** The first three candidates of a list get three, two and one hundredths more impact and confidence than the rest. */
  lemma EarlyBonus(kind: Kind, index: nat, facts: Facts, openTasks: bool, duplicates: nat)
    ensures var factors, late := FactorsOf(kind, index, facts, openTasks, duplicates), FactorsOf(kind, 3, facts, openTasks, duplicates);
            var bonus := if index == 0 then 0.03 else if index == 1 then 0.02 else if index == 2 then 0.01 else 0.0;
            && factors.impact == late.impact + bonus
            && factors.(impact := late.impact, confidence := late.confidence) == late
  {
    if index > 3 {
      TimesIsMonotone(3, index, 0.01);
    }
  }
}
