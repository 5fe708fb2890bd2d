# Region inference from activity hours — a Dafny model

The analyzer clusters a user's posting times by hour of day. Each cluster has a centre hour in UTC. It classifies that centre hour against a fixed table of regions and their typical working hours. This project models the classification and the step that attaches it to every analysed row, and proves what the classification promises.

- **Hours** (`Hours.dfy`). Python's `x % 24` for a positive modulus uses floor division, so the result is never negative (`Mod24`). The circular distance between two hours is `min((a - b) % 24, (b - a) % 24)`.
- **Region table** (`RegionTable.dfy`). The 28 regions appear in source order as five continent groups. Each has its active-hours window `(start, end)` in UTC. The order matters because ties go to the earlier entry. Three Oceania windows cross midnight (`start > end`).
- **Ranking** (`Ranking.dfy`). The list of `(region, distance)` scores is sorted stably by distance. Each score also carries its table position, so stability can be stated. For a list in table order, the stable sort equals the ordering by (distance, table position). That ordering is then shown to equal choosing the nearest remaining region three times, earliest first on ties (`NearestAmong`).
- **Classifier** (`Classifier.dfy`):
  - `Distance` is zero when the literal test `start <= h <= end` holds. Otherwise it is the smaller circular distance to the two bounds.
  - `Confidence` is `max(0.2, 1 - d / 12)`.
  - `Classify` is the specification of `interpret_cluster`.
  - `InterpretCluster` is the imperative version: a scoring loop over the table (`ScoreRegions`), then the stable sort, the main region, the two alternatives and the confidence. It is proved equal to `Classify`.
- **Analyzer** (`Analyzer.dfy`). `Annotate` gives every row its cluster label, that cluster's centre hour and the classification of that hour.
- **Examples** (`Examples.dfy`). Three classifications and one distance are worked out from the table.

The window test is literal, as in the code, so a window that crosses midnight never counts as containing the hour. Australia Central, Australia Eastern and New Zealand are therefore measured only from their bounds. Their distance is zero only exactly at `start` or `end` (`DistanceZeroAcrossMidnight`). At 01:00 UTC the New Zealand distance is four hours, although New Zealand's 21:00–05:00 window contains 01:00 on the clock (`NewZealandAtOne`). The model keeps this behaviour as written.

At 09:00 UTC the code's table order makes US Pacific the winner, with US Mountain and US Central as the alternatives (`ClassifyAtNine`). UK and Ireland do not win there, because three North American windows containing 09:00 come first in the table. The model follows the code.

## Model

| member | source | states |
|---|---|---|
| Hours.Mod24 | src/timezone_cluster_analyzer.py:155-156 | Python's floor-mod by 24 lies in [0, 24) and leaves an hour of the day unchanged |
| Hours.Mod24Shift | src/timezone_cluster_analyzer.py:155-156 | for arguments between -48 and 48, floor-mod by 24 adds or subtracts at most two whole days |
| Hours.Mod24Periodic | src/timezone_cluster_analyzer.py:155-156 | shifting the argument by a whole number of days does not change the remainder |
| Hours.Mod24Zero | src/timezone_cluster_analyzer.py:155-156 | the remainder is zero exactly when the argument is a whole number of days |
| Hours.Mod24Negate | src/timezone_cluster_analyzer.py:155-156 | the remainders of x and -x add up to 24, unless both are zero |
| Hours.CircularDistance | src/timezone_cluster_analyzer.py:155-156 | the shorter way round the clock lies in [0, 12] and is zero exactly when the hours differ by whole days |
| Hours.CircularDistanceSymmetric | src/timezone_cluster_analyzer.py:155-156 | measuring from either end gives the same distance |
| Hours.CircularDistanceZero | src/timezone_cluster_analyzer.py:155-156 | two hours of the same day are at distance zero if and only if they are equal |
| RegionTable.TableSize | src/timezone_cluster_analyzer.py:105-143 | the table has 28 entries |
| RegionTable.WindowBounds | src/timezone_cluster_analyzer.py:105-143 | every window bound is an hour in [0, 24) |
| RegionTable.MidnightWindows | src/timezone_cluster_analyzer.py:140-142 | a window crosses midnight if and only if it is one of the last three entries, which are Australia Central, Australia Eastern and New Zealand |
| RegionTable.NamesDistinct | src/timezone_cluster_analyzer.py:105-143 | no two table entries share a name (they are dictionary keys) |
| RegionTable.DistinctConcat | src/timezone_cluster_analyzer.py:105-143 | joining two groups with distinct names and no name in common keeps the names distinct |
| RegionTable.EntryOfGroup | src/timezone_cluster_analyzer.py:105-143 | which continent group, and which entry of it, each table position holds |
| Ranking.Insert | src/timezone_cluster_analyzer.py:162 | one insertion step adds exactly the new entry (multiset) and lengthens the list by one |
| Ranking.InsertSorted | src/timezone_cluster_analyzer.py:162 | inserting keeps a list sorted by distance |
| Ranking.InsertRanked | src/timezone_cluster_analyzer.py:162 | inserting an entry listed after all others keeps a (distance, position) ranking strict, so equal distances keep their order |
| Ranking.StableSort | src/timezone_cluster_analyzer.py:162 | the sort is a permutation sorted by distance, and on a list in table order it is strictly ranked by (distance, table position), which is stability |
| Ranking.ListedBeforeLast | src/timezone_cluster_analyzer.py:162 | for a list in table order, every rearranged entry before the last is listed ahead of the last |
| Ranking.RankedAheadOfRest | src/timezone_cluster_analyzer.py:162 | in a strict ranking, the entry at position k is ahead of everything not at positions 0..k |
| Ranking.BestOfRestIsAt | src/timezone_cluster_analyzer.py:162 | conversely, the entry ahead of everything left after positions 0..k-1 is the entry at position k |
| Ranking.NearestAmong | src/timezone_cluster_analyzer.py:162-164 | the selected position is not excluded and is ranked ahead of every other remaining position, or it is -1 when none remains |
| Ranking.NearestAmongIs | src/timezone_cluster_analyzer.py:162-164 | a remaining position ranked ahead of all others is the selected one, so selection is unique |
| Ranking.TakenBy | src/timezone_cluster_analyzer.py:162 | the positions taken by the first k ranked entries, in both directions |
| Ranking.SortedEntry | src/timezone_cluster_analyzer.py:162 | each sorted entry is the score of the table position it carries |
| Ranking.SortIsSelection | src/timezone_cluster_analyzer.py:162 | the k-th entry of the stable sort is the nearest entry, earliest on ties, among those not already ranked |
| Ranking.FirstPick | src/timezone_cluster_analyzer.py:163 | the first sorted entry is the nearest region, earliest on ties |
| Ranking.SecondPick | src/timezone_cluster_analyzer.py:164 | the second sorted entry is the next pick after the first |
| Ranking.ThirdPick | src/timezone_cluster_analyzer.py:164 | the third sorted entry is the next pick after the first two |
| Ranking.ThreePicksAre | src/timezone_cluster_analyzer.py:162-164 | conversely, three distinct positions ranked one ahead of the next and ahead of every other entry are the three successive picks |
| Ranking.FirstThree | src/timezone_cluster_analyzer.py:162-164 | the first three sorted entries are the three successive picks |
| Ranking.PicksDefined | src/timezone_cluster_analyzer.py:163-164 | with at least three entries, the three successive picks exist, are distinct, and each ranks ahead of the next |
| Ranking.FirstThreePicks | src/timezone_cluster_analyzer.py:162-164 | the three picks are distinct; the first has minimum distance and is strictly nearer than every earlier entry; distances never decrease across the three; every other entry ranks after the third |
| Classifier.Distance | src/timezone_cluster_analyzer.py:150-157 | a region's distance lies in [0, 12] and is zero when the hour passes the literal window test |
| Classifier.DistanceZeroInsideWindow | src/timezone_cluster_analyzer.py:150-157 | for a window that does not cross midnight, the distance is zero if and only if the hour lies in the window |
| Classifier.DistanceZeroAcrossMidnight | src/timezone_cluster_analyzer.py:150-157 | a window crossing midnight never passes the window test, and its distance is zero if and only if the hour equals one of its bounds |
| Classifier.ScoresOver | src/timezone_cluster_analyzer.py:146-159 | one score per table entry, in table order, each carrying its position, the entry's name and the entry's distance |
| Classifier.Scores | src/timezone_cluster_analyzer.py:146-159 | the region table yields 28 scores, each carrying its table position |
| Classifier.Confidence | src/timezone_cluster_analyzer.py:167 | confidence lies in [0.2, 1], is never below 1 - d/12, and is 1 exactly when the distance is 0 |
| Classifier.ConfidenceNonIncreasing | src/timezone_cluster_analyzer.py:167 | confidence does not grow as the distance grows |
| Classifier.RegionNames | src/timezone_cluster_analyzer.py:164 | the names of a list of scores, position by position |
| Classifier.Ranked | src/timezone_cluster_analyzer.py:162 | the ranking is a permutation of the 28 scores, strictly ordered by (distance, table position) |
| Classifier.Classify | src/timezone_cluster_analyzer.py:163-169 | the reported confidence lies in [0.2, 1] and there are exactly two alternatives |
| Classifier.ClassifyBySelection | src/timezone_cluster_analyzer.py:162-169 | the main region, its confidence and the two alternatives are those of the three successive nearest picks |
| Classifier.MainRegionNearest | src/timezone_cluster_analyzer.py:147-167 | the main region has the minimum distance over all 28 entries and every earlier entry is strictly further, so ties go to the earliest; the confidence is that of its distance |
| Classifier.AlternativesNext | src/timezone_cluster_analyzer.py:162-164 | the alternatives are the next two picks, with distances that do not decrease from main to alt1 to alt2; every unreported region ranks after them |
| Classifier.ReportedNamesDistinct | src/timezone_cluster_analyzer.py:163-164 | the main region and the two alternatives are three different names |
| Classifier.ScoreRegions | src/timezone_cluster_analyzer.py:146-159 | the scoring loop over a table appends exactly the score of each entry, in table order |
| Classifier.InterpretCluster | src/timezone_cluster_analyzer.py:89-169 | the loop-and-sort implementation returns exactly the classification of the cluster's centre hour |
| Analyzer.Annotate | src/timezone_cluster_analyzer.py:172-179 | row count and order are kept; every row gets its cluster label, that cluster's hour and the classification of that hour |
| Analyzer.AnnotationConsistent | src/timezone_cluster_analyzer.py:172-179 | rows of the same cluster carry the same hour, region, confidence and alternatives; confidence lies in [0.2, 1]; the two alternatives differ from each other and from the region |
| Examples.ScoresAtNine | src/timezone_cluster_analyzer.py:107-159 | the first three scores for hour 9 are US Pacific, US Mountain and US Central, all at distance 0 |
| Examples.PicksAtNine | src/timezone_cluster_analyzer.py:162-164 | the three picks for hour 9 are table positions 0, 1 and 2 |
| Examples.ClassifyAtNine | src/timezone_cluster_analyzer.py:105-167 | hour 9 gives US Pacific with confidence 1.0 and alternatives US Mountain, US Central |
| Examples.DistanceOutside | src/timezone_cluster_analyzer.py:153-157 | outside its window, a region's distance can be computed without floor division |
| Examples.AmericasFromEighteen | src/timezone_cluster_analyzer.py:106-116 | every North and South American region is more than 2 hours from hour 18 |
| Examples.AsiaFromEighteen | src/timezone_cluster_analyzer.py:125-136 | every Asian region is more than 2 hours from hour 18 |
| Examples.OceaniaFromEighteen | src/timezone_cluster_analyzer.py:138-142 | every Oceanian region is more than 2 hours from hour 18 |
| Examples.EuropeAtEighteen | src/timezone_cluster_analyzer.py:118-157 | the European distances from hour 18 are 1, 1 and 2 for UK, Ireland and Central Europe, and more than 2 for the rest |
| Examples.ScoresAtEighteen | src/timezone_cluster_analyzer.py:146-159 | in the list of scores for hour 18, positions 8 to 10 hold UK, Ireland and Central Europe at distances 1, 1 and 2, and every other position is more than 2 |
| Examples.PicksAtEighteen | src/timezone_cluster_analyzer.py:162-164 | the three picks for hour 18 are table positions 8, 9 and 10 |
| Examples.ClassifyAtEighteen | src/timezone_cluster_analyzer.py:105-167 | hour 18 gives UK with confidence 11/12 and alternatives Ireland, Central Europe |
| Examples.AmericasFromTwentyTwo | src/timezone_cluster_analyzer.py:106-116 | every North and South American region is more than 1.5 hours from hour 22 |
| Examples.EuropeFromTwentyTwo | src/timezone_cluster_analyzer.py:118-123 | every European region is more than 1.5 hours from hour 22 |
| Examples.AsiaFromTwentyTwo | src/timezone_cluster_analyzer.py:125-136 | every Asian region is more than 1.5 hours from hour 22 |
| Examples.OceaniaAtTwentyTwo | src/timezone_cluster_analyzer.py:139-157 | the Oceania distances from hour 22 are more than 1.5, then 1.5, 1 and 1 |
| Examples.ScoresAtTwentyTwo | src/timezone_cluster_analyzer.py:146-159 | in the list of scores for hour 22, positions 25 to 27 hold Australia Central, Australia Eastern and New Zealand at distances 1.5, 1 and 1, and every earlier position is more than 1.5 |
| Examples.PicksAtTwentyTwo | src/timezone_cluster_analyzer.py:162-164 | the three picks for hour 22 are table positions 26, 27 and 25 |
| Examples.ClassifyAtTwentyTwo | src/timezone_cluster_analyzer.py:105-167 | hour 22 gives Australia Eastern with confidence 11/12 and alternatives New Zealand, Australia Central |
| Examples.NewZealandAtOne | src/timezone_cluster_analyzer.py:142-157 | at hour 1, inside New Zealand's clock window, the literal test misses and the distance is 4 |

## Left out

- Feature extraction (timestamp parsing, sine/cosine encoding, standard scaling): floating-point numerics inside library calls. Cluster labels and cluster centre hours are inputs of the model instead.
- KMeans fitting and the `atan2` recovery of centre hours: opaque library numerics. The `% 24` wrap applied to the recovered hours is the `Mod24` result range.
- Floating-point rounding: hours are exact reals, so the edge effects of IEEE `%` and division are not captured.
- The `offset` field of each table entry: the classification never reads it.
- Logging.
- The command-line driver (dataset download, per-region aggregation, the SQLite upsert) and the test file's database and mock tests: I/O and library plumbing.
- Classifier.InterpretCluster: the source function is a closure over the array of cluster hours. The model passes that array and the cluster index explicitly.
- Classifier.InterpretCluster: the in-place `list.sort` is modelled as the pure `StableSort` on the sequence of scores, so in-place update and aliasing of the list are not captured.
- Analyzer.Annotate: the source copies a data frame and assigns new columns one at a time. The model returns a fresh sequence of decorated rows, and a row's other columns are an opaque record value.
- Analyzer.Annotate: like the source, it takes every cluster label to be a valid index into the cluster hours. It requires this rather than modelling an index error.
