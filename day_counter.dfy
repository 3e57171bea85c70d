/** The milestone classifier of the clean-day counter card.

    The card maps the number of clean days of the current streak to one
    of five milestone records (a German caption, a colour and an icon).
    The mapping is a chain of guarded returns on lower-bound thresholds,
    tried from the highest (365) down to the lowest (7), with a default
    below that. Day counts are integers here.
 */
module DayCounter {

  /** The two icon kinds the card can show. */
  datatype Icon = Trophy | Star

  /** The five milestones, one per band of day counts. */
  datatype Milestone = Start | Week | Month | ThreeMonths | Year

  /** What the card shows for a milestone. */
  datatype MilestoneInfo = MilestoneInfo(text: string, color: string, icon: Icon)

  /** All milestones, from the lowest band to the highest. */
  const Ascending: seq<Milestone> := [Start, Week, Month, ThreeMonths, Year]

  /** The position of a milestone in the ascending order. */
  function Rank(m: Milestone): (r: nat)
    ensures r < |Ascending| && Ascending[r] == m
  {
    match m
    case Start => 0
    case Week => 1
    case Month => 2
    case ThreeMonths => 3
    case Year => 4
  }

  /** The day count has reached the threshold of `m` (the default band has none). */
  predicate Reached(m: Milestone, days: int) {
    match m
    case Start => true
    case Week => days >= 7
    case Month => days >= 30
    case ThreeMonths => days >= 90
    case Year => days >= 365
  }

  /** Reference definition: the half-open interval of day counts that
      belongs to each milestone, lower bounds inclusive. */
  predicate InBand(m: Milestone, days: int) {
    match m
    case Start => days < 7
    case Week => 7 <= days < 30
    case Month => 30 <= days < 90
    case ThreeMonths => 90 <= days < 365
    case Year => 365 <= days
  }

  /** The classifier as the source writes it: the first threshold from
      the top that the day count reaches wins. It lands in the band of
      its input, and picks the highest milestone whose threshold is reached. */
  function MilestoneOf(days: int): (m: Milestone)
    ensures InBand(m, days)
    ensures Reached(m, days)
    ensures forall m' :: Reached(m', days) ==> Rank(m') <= Rank(m)
  {
    if days >= 365 then Year
    else if days >= 90 then ThreeMonths
    else if days >= 30 then Month
    else if days >= 7 then Week
    else Start
  }

  /** The record shown for each milestone. Only the two upper milestones
      carry a trophy. */
  function Info(m: Milestone): (r: MilestoneInfo)
    ensures r.icon == Trophy <==> Rank(m) >= Rank(ThreeMonths)
  {
    match m
    case Year => MilestoneInfo("Ein ganzes Jahr!", "#8B5CF6", Trophy)
    case ThreeMonths => MilestoneInfo("3 Monate geschafft!", "#F59E0B", Trophy)
    case Month => MilestoneInfo("1 Monat stark!", "#10B981", Star)
    case Week => MilestoneInfo("1 Woche!", "#3B82F6", Star)
    case Start => MilestoneInfo("Jeden Tag zählt", "#6366F1", Star)
  }

  /** `getMilestoneInfo`: the record for a day count, stated band by band. */
  function GetMilestoneInfo(days: int): (r: MilestoneInfo)
    ensures days >= 365 ==> r == MilestoneInfo("Ein ganzes Jahr!", "#8B5CF6", Trophy)
    ensures 90 <= days < 365 ==> r == MilestoneInfo("3 Monate geschafft!", "#F59E0B", Trophy)
    ensures 30 <= days < 90 ==> r == MilestoneInfo("1 Monat stark!", "#10B981", Star)
    ensures 7 <= days < 30 ==> r == MilestoneInfo("1 Woche!", "#3B82F6", Star)
    ensures days < 7 ==> r == MilestoneInfo("Jeden Tag zählt", "#6366F1", Star)
  {
    Info(MilestoneOf(days))
  }

  /** The five records the card can show. */
  const Records: set<MilestoneInfo> := set m | m in Ascending :: Info(m)

  // ---------------------------------------------------------------------
  // Properties of the classifier
  // ---------------------------------------------------------------------

  /** The bands do not overlap: a day count belongs to one milestone only. */
  lemma BandsDisjoint(m1: Milestone, m2: Milestone, days: int)
    requires InBand(m1, days) && InBand(m2, days)
    ensures m1 == m2
  {
  }

  /** The band reference and the first-match chain agree in both directions. */
  lemma InBandIffMilestoneOf(m: Milestone, days: int)
    ensures InBand(m, days) <==> MilestoneOf(days) == m
  {
    if InBand(m, days) {
      BandsDisjoint(m, MilestoneOf(days), days);
    }
  }

  /** The captions alone tell the five milestones apart, and so do the colours. */
  lemma InfoInjective(m1: Milestone, m2: Milestone)
    ensures Info(m1).text == Info(m2).text ==> m1 == m2
    ensures Info(m1).color == Info(m2).color ==> m1 == m2
  {
  }

  /** Totality: every day count yields one of exactly five distinct records. */
  lemma OneOfFiveRecords(days: int)
    ensures GetMilestoneInfo(days) in Records
    ensures |Records| == 5
  {
    assert Ascending[Rank(MilestoneOf(days))] == MilestoneOf(days);
    var r0, r1, r2, r3, r4 := Info(Start), Info(Week), Info(Month), Info(ThreeMonths), Info(Year);
    assert Records == {r0, r1, r2, r3, r4} by {
      forall r | r in Records ensures r in {r0, r1, r2, r3, r4} {
        var m :| m in Ascending && Info(m) == r;
      }
      forall r | r in {r0, r1, r2, r3, r4} ensures r in Records {
        assert Ascending[0] == Start && Ascending[1] == Week && Ascending[2] == Month;
        assert Ascending[3] == ThreeMonths && Ascending[4] == Year;
      }
    }
  }

  /** The icon is a trophy exactly from 90 days on. */
  lemma TrophyIffAtLeastNinety(days: int)
    ensures GetMilestoneInfo(days).icon == Trophy <==> days >= 90
  {
  }

  /** Lower bounds are inclusive: each threshold belongs to its own band,
      and the day before it to the band below. */
  lemma ThresholdsInclusive()
    ensures MilestoneOf(7) == Week && MilestoneOf(6) == Start
    ensures MilestoneOf(30) == Month && MilestoneOf(29) == Week
    ensures MilestoneOf(90) == ThreeMonths && MilestoneOf(89) == Month
    ensures MilestoneOf(365) == Year && MilestoneOf(364) == ThreeMonths
  {
  }

  /** One more clean day changes the milestone exactly when the new count
      is one of the four thresholds, and then it moves up by one rank. */
  lemma NextDay(days: int)
    ensures MilestoneOf(days + 1) != MilestoneOf(days) <==> days + 1 in {7, 30, 90, 365}
    ensures MilestoneOf(days + 1) != MilestoneOf(days) ==>
              Rank(MilestoneOf(days + 1)) == Rank(MilestoneOf(days)) + 1
  {
  }

  // ---------------------------------------------------------------------
  // The chain of guarded returns as data
  // ---------------------------------------------------------------------

  /** One guarded return: `if (days >= atLeast) return milestone`. */
  datatype Rule = Rule(atLeast: int, milestone: Milestone)

  /** The source's four guards, in the order they are tried; Start is the default. */
  const Chain: seq<Rule> := [Rule(365, Year), Rule(90, ThreeMonths), Rule(30, Month), Rule(7, Week)]

  /** The position of the first rule whose threshold the day count
      reaches, or `|rules|` when there is none. */
  function FirstFiring(rules: seq<Rule>, days: int): (k: nat)
    ensures k <= |rules|
    ensures forall j :: 0 <= j < k ==> days < rules[j].atLeast
    ensures k < |rules| ==> rules[k].atLeast <= days
    decreases |rules|
  {
    if rules == [] || days >= rules[0].atLeast then 0
    else 1 + FirstFiring(rules[1..], days)
  }

  /** Tries the rules in order and returns the milestone of the first one
      whose threshold is reached, or `fallback` when none is. */
  function FirstMatch(rules: seq<Rule>, fallback: Milestone, days: int): (m: Milestone)
    ensures var k := FirstFiring(rules, days);
            m == if k < |rules| then rules[k].milestone else fallback
    decreases |rules|
  {
    if rules == [] then fallback
    else if days >= rules[0].atLeast then rules[0].milestone
    else FirstMatch(rules[1..], fallback, days)
  }

  /** Earlier rules carry milestones ranked at least as high as later ones,
      and the fallback ranks lowest. */
  predicate RanksDescend(rules: seq<Rule>, fallback: Milestone) {
    && (forall i, j :: 0 <= i < j < |rules| ==> Rank(rules[j].milestone) <= Rank(rules[i].milestone))
    && (forall i :: 0 <= i < |rules| ==> Rank(fallback) <= Rank(rules[i].milestone))
  }

  /** A first-match chain whose ranks descend is monotone in the day count:
      a larger count fires the same guard or an earlier one. */
  lemma FirstMatchMonotone(rules: seq<Rule>, fallback: Milestone, a: int, b: int)
    requires RanksDescend(rules, fallback)
    requires a <= b
    ensures FirstFiring(rules, b) <= FirstFiring(rules, a)
    ensures Rank(FirstMatch(rules, fallback, a)) <= Rank(FirstMatch(rules, fallback, b))
  {
  }

  /** The if-chain is the first-match evaluation of the source's four rules. */
  lemma ChainIsFirstMatch(days: int)
    ensures MilestoneOf(days) == FirstMatch(Chain, Start, days)
  {
  }

  /** Monotonicity: more clean days never give a lower milestone. */
  lemma MilestoneMonotone(a: int, b: int)
    requires a <= b
    ensures Rank(MilestoneOf(a)) <= Rank(MilestoneOf(b))
  {
    assert RanksDescend(Chain, Start);
    ChainIsFirstMatch(a);
    ChainIsFirstMatch(b);
    FirstMatchMonotone(Chain, Start, a, b);
  }
}
