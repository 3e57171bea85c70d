# Clean-day milestone classifier

This project models the milestone logic of the clean-day counter card in a
recovery-support mobile app. The card gets the number of clean days in the
current streak. It shows one of five milestone records: a German caption, a
colour and an icon, which is a trophy or a star. The record is chosen by a
chain of guarded returns on lower-bound thresholds. The chain tries 365, 90,
30 and 7 in that order, and a default record covers everything below 7,
zero and negative counts included.

The model is one Dafny module, `DayCounter`, in `day_counter.dfy`. It has:

- `MilestoneOf`, the if-chain as written, mapping a day count to one of five milestones;
- `Info`, the record shown for each milestone, with the exact literals;
- `GetMilestoneInfo`, the two composed, which is the component's `getMilestoneInfo`;
- `InBand`, an independent reference definition of the five half-open intervals
  of day counts;
- `Rule`, `Chain` and `FirstMatch`, the same chain written as data: a list of
  `(threshold, milestone)` guards tried in order, with a fallback. This carries
  the general theorem that such a chain is monotone whenever earlier guards
  return higher milestones.

## Model

| member | source | states |
|---|---|---|
| DayCounter.MilestoneOf | components/DayCounter.tsx:10-16 | the first-match chain lands in the band its input belongs to; the milestone it picks has its threshold reached; no milestone ranked higher has its threshold reached |
| DayCounter.Info | components/DayCounter.tsx:11-15 | each milestone's record; the icon is Trophy exactly for the two upper milestones (three months and year) |
| DayCounter.GetMilestoneInfo | components/DayCounter.tsx:10-18 | band by band: 365 and above gives 'Ein ganzes Jahr!', '#8B5CF6', Trophy; 90 to 364 gives '3 Monate geschafft!', '#F59E0B', Trophy; 30 to 89 gives '1 Monat stark!', '#10B981', Star; 7 to 29 gives '1 Woche!', '#3B82F6', Star; below 7, negatives included, gives 'Jeden Tag zählt', '#6366F1', Star |
| DayCounter.Rank | components/DayCounter.tsx:11-15 | gives the milestone's position in the ascending order of bands (Start, Week, Month, ThreeMonths, Year), which is the reverse of the order the guards are tried |
| DayCounter.BandsDisjoint | components/DayCounter.tsx:11-15 | no day count lies in two bands |
| DayCounter.InBandIffMilestoneOf | components/DayCounter.tsx:10-16 | a day count lies in a milestone's interval if and only if the chain returns that milestone |
| DayCounter.InfoInjective | components/DayCounter.tsx:11-15 | the five captions are pairwise distinct, and so are the five colours |
| DayCounter.OneOfFiveRecords | components/DayCounter.tsx:10-16 | the function is total: every day count yields one of exactly five distinct records |
| DayCounter.TrophyIffAtLeastNinety | components/DayCounter.tsx:11-15 | the icon is Trophy if and only if the day count is at least 90 |
| DayCounter.ThresholdsInclusive | components/DayCounter.tsx:11-14 | 7, 30, 90 and 365 each land in their own band; 6, 29, 89 and 364 land in the band below |
| DayCounter.NextDay | components/DayCounter.tsx:11-15 | one more clean day changes the milestone exactly when the new count is 7, 30, 90 or 365, and then the milestone moves up by exactly one rank |
| DayCounter.FirstFiring | components/DayCounter.tsx:11-15 | gives the index of the first guard whose threshold the count reaches; every guard before it fails; it is the list length when no guard fires |
| DayCounter.FirstMatch | components/DayCounter.tsx:10-16 | guards are tried in order: the result is the milestone of the first guard that fires, or the fallback when none fires |
| DayCounter.FirstMatchMonotone | components/DayCounter.tsx:10-16 | for any first-match chain whose guards return milestones in descending rank, with the lowest-ranked fallback: a larger day count fires the same guard or an earlier one, and the resulting milestone ranks no lower |
| DayCounter.ChainIsFirstMatch | components/DayCounter.tsx:10-16 | the if-chain is the first-match evaluation of the guards (365, Year), (90, ThreeMonths), (30, Month) and (7, Week), with Start as the fallback |
| DayCounter.MilestoneMonotone | components/DayCounter.tsx:10-16 | monotonicity: if a <= b then the milestone for a ranks no higher than the milestone for b |

## Left out

- Rendering (components/DayCounter.tsx:19-73): the card layout, the style sheet, and the use of the colour for the border, icon and caption. These are view code and hold no logic.
- The lucide `Trophy` and `Star` components are modelled by an `Icon` tag, not as components.
- JavaScript `number` semantics for the day count: fractional values, `NaN` and infinities are not modelled. Day counts are mathematical integers. In the source, `NaN` fails every `>=` guard and so gets the default record.
- components/QuickActions.tsx and components/SafeContainer.tsx: static button lists and a layout wrapper with no logic.
- The task, journal, progress and motivation screens under app/(tabs)/ are not part of this model. Their state is component-local and is not the counter's logic.
- Where the clean-day count comes from is not part of this model. The component gets it as a property from its caller.
