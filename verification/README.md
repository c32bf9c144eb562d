# Top languages: a Dafny model

The script `main.py` builds a "top languages" bar chart for a GitHub user. It
makes one unpaginated call listing the user's repositories, which returns one
page of them, and fetches the language breakdown (bytes per language) of each
repository on that page. It adds the breakdowns into one dictionary `lang_stats`, skipping
the excluded names (`JavaScript`, `Hack`) and counting merge sources under
their target (`Jupyter Notebook` as `Python`). It ranks the totals highest
first, keeps the first `TOP_N = 8`, splits them into `labels` and `sizes`,
turns the sizes into percentages of the kept total, and picks one colour per
bar.

This project models that data path and proves what it computes:

- `config.dfy`: the settings (exclusion set, merge table, `TOP_N`) as one
  value, and the per-pair decision "skip or rename".
- `aggregate.dfy`: the double loop as a left fold over repositories and
  pairs. `Contributes` and `Contribution` give a reference definition of the
  result with no loop in it, and the fold is proved equal to it.
- `conservation.dfy`: the totals of `lang_stats` add up to the bytes of every
  non-excluded pair.
- `order.dfy`: `lang_stats` does not depend on the order of the repositories
  or of the pairs inside one.
- `dictorder.dfy`: the iteration order of `lang_stats.items()`, which is the
  order in which each name was first inserted.
- `ranking.dfy`: the descending sort by count, as a stable insertion sort,
  the cut to the first `TOP_N`, and the `labels`/`sizes` projection.
- `shares.dfy`: the percentages, as exact reals, with the division error.
- `colors.dfy`: `get_language_color` and the list of bar colours.
- `pipeline.dfy`: the whole path from repositories to the chart's series.
- `worked_examples.dfy`: small inputs computed end to end.

The properties of the ranking are stated for any enumeration of the
dictionary, so they hold whatever order equal counts come out in. The
pipeline itself uses the insertion order, so it is one deterministic
function.

The script's percentage step divides only inside the list comprehension.
With nothing kept (no repositories, every name excluded, or `TOP_N = 0`),
`sizes` is empty, the comprehension never divides, and the chart series are
empty; no error is raised then. The division fails only when at least one
language is kept and every kept total is zero. The model follows the code.
`TopLanguagesFails` states this exact condition and `NoDataGivesEmptyChart`
states the empty case.

## Model

| member | source | states |
|---|---|---|
| Config.Canonical | main.py:49 | a name outside the merge table is kept as is; a merge source lands on its own target in the table |
| Config.Counted | main.py:47-48 | whether a pair takes part at all, decided on the name as reported, before merging; its effect is stated by `Aggregate.Step` and `Aggregate.ExcludedPairIsInert` |
| Config.MergeSourceNeverLands | main.py:49 | a merge source that is not also a merge target is never the name a pair is counted under |
| Config.DefaultSettings | main.py:14-16 | with the shipped constants notebooks count as Python, JavaScript and Hack are skipped, and eight bars are kept |
| Aggregate.Step | main.py:46-50 | one loop iteration: an excluded pair leaves the map unchanged; otherwise the canonical name becomes a key whose total grows by the pair's bytes, and every other key keeps its total |
| Aggregate.Accumulate | main.py:46-50 | the inner loop over one repository's pairs; its meaning is stated by `Aggregate.AccumulateMeaning` and `Conservation.AccumulateConserves` |
| Aggregate.AccumulateRepos | main.py:44-50 | the outer loop over the repositories; `Aggregate.ReposAreFlattened` states it is one loop over all pairs |
| Aggregate.LangStats | main.py:43-50 | `lang_stats` after the loop; its meaning is stated by `Aggregate.LangStatsMeaning`, `Conservation.LangStatsConserves` and `OrderIndependence.LangStatsDependsOnPairsOnly` |
| Aggregate.AccumulateConcat | main.py:46-50 | folding two pair lists one after the other is folding their concatenation |
| Aggregate.FlattenConcat | main.py:44-46 | flattening two repository lists one after the other is flattening their concatenation |
| Aggregate.ReposAreFlattened | main.py:43-50 | the nested loop over repositories and pairs equals one loop over all pairs in visiting order |
| Aggregate.AccumulateMeaning | main.py:46-50 | after the loop a name is a key exactly when it was one before or some counted pair lands on it, and its total is its old total plus the bytes of those pairs |
| Aggregate.LangStatsMeaning | main.py:43-50 | `lang_stats` has a key exactly for the names some counted pair lands on, and each total is the sum of the bytes of those pairs |
| Aggregate.ExcludedPairIsInert | main.py:47-48 | inserting an excluded pair anywhere in the input does not change the result, so its bytes count nowhere |
| Aggregate.ExcludedNameAbsent | main.py:47-50 | an excluded name that nothing is merged into never becomes a key |
| Aggregate.MergeSourceAbsent | main.py:49-50 | a merge source that is not a merge target never becomes a key |
| Aggregate.MergedBytesLandOnTarget | main.py:49-50 | a repository reporting n bytes under a counted merge source adds exactly n to the target's total, adds no key but the target, and changes no other total |
| Aggregate.DefaultAbsentNames | main.py:14-15 | with the shipped settings JavaScript, Hack and Jupyter Notebook are never keys |
| Conservation.AccumulateConserves | main.py:46-50 | the loop raises the sum of all totals by exactly the bytes of the counted pairs |
| Conservation.LangStatsConserves | main.py:43-50 | the totals of `lang_stats` add up to the bytes of all non-excluded pairs of all repositories |
| OrderIndependence.StepCommutes | main.py:46-50 | two loop iterations can be swapped without changing the map |
| OrderIndependence.MoveToFront | main.py:46-50 | visiting any one pair first and the others in order gives the same map |
| OrderIndependence.AccumulatePermutation | main.py:46-50 | any two orders of the same multiset of pairs give the same map |
| OrderIndependence.FlattenPermutation | main.py:44-46 | permuting the repositories permutes the multiset of all pairs |
| OrderIndependence.FlattenPointwise | main.py:44-46 | permuting the pairs inside each repository permutes the multiset of all pairs |
| OrderIndependence.LangStatsDependsOnPairsOnly | main.py:43-50 | two inputs reporting the same multiset of pairs give the same `lang_stats` |
| OrderIndependence.RepoOrderIrrelevant | main.py:44-50 | permuting the repository list does not change `lang_stats` |
| OrderIndependence.PairOrderIrrelevant | main.py:44-50 | permuting the pairs within each repository does not change `lang_stats` |
| DictOrder.FirstSeen | main.py:46-50 | the order in which names are first inserted into the dictionary; `DictOrder.FirstSeenTracksKeys` states it lists the keys once each |
| DictOrder.KeyOrder | main.py:43-50 | the insertion order of `lang_stats`; `DictOrder.KeyOrderIsKeys` states it lists exactly its keys |
| DictOrder.FirstSeenTracksKeys | main.py:43-50 | the insertion order lists each key of the running map exactly once and nothing else |
| DictOrder.KeyOrderIsKeys | main.py:43-50 | the insertion order of `lang_stats` lists its keys, each once |
| DictOrder.Items | main.py:52 | `lang_stats.items()` enumerates every entry of the map exactly once |
| Ranking.Labels | main.py:54 | `labels` is as long as `sorted_langs` and holds each entry's name at the same position |
| Ranking.Sizes | main.py:55 | `sizes` is as long as `sorted_langs` and holds each entry's count at the same position |
| Ranking.ProjectionRoundTrip | main.py:54-55 | `labels` and `sizes` have equal length and pairing them back up gives `sorted_langs` again |
| Ranking.Insert | main.py:52 | one insertion step of the sort adds exactly the one entry to the list, as a multiset |
| Ranking.InsertDescending | main.py:52 | inserting into a highest-first list keeps it highest first |
| Ranking.InsertDistinct | main.py:52 | inserting an entry with a new name keeps the names distinct |
| Ranking.SortByBytes | main.py:52 | the sort returns a permutation of its input, highest count first |
| Ranking.SortKeepsNamesDistinct | main.py:52 | sorting entries with distinct names keeps the names distinct |
| Ranking.InsertWithCount | main.py:52 | one insertion step puts the new entry ahead of every entry with its count and keeps the order of all others |
| Ranking.SortIsStable | main.py:52 | the sort is stable: for every count, the entries with that count come out in the order they went in |
| Ranking.SortKeepsDescending | main.py:52 | an input that is already highest first, ties included, comes back unchanged |
| Ranking.Rank | main.py:52 | sort then cut to the first `TOP_N`; its meaning is stated by `Ranking.RankMeaning` |
| Ranking.RankKeepsDescending | main.py:52 | a highest-first list no longer than `TOP_N` is its own ranking |
| Ranking.EnumerationLength | main.py:52 | an enumeration of the dictionary has one entry per key |
| Ranking.RankedAreEntries | main.py:52 | every entry of `sorted_langs` is an entry of `lang_stats` with the same count |
| Ranking.DroppedAreOutranked | main.py:52 | a key missing from `sorted_langs` means `TOP_N` entries were kept, each with a count at least the missing key's |
| Ranking.RankMeaning | main.py:52 | for any enumeration of the map: length `min(TOP_N, number of keys)`, entries of the map, no name twice, highest first, and no dropped key above a kept entry |
| Shares.ShareFacts | main.py:58 | a share times the total is 100 times the size; shares are not negative, follow the order of the sizes, and stay within 100 while the size stays within the total |
| Shares.Scale | main.py:58 | one share per size, each the size's share of the given total, in order |
| Shares.ElementAtMostSum | main.py:57 | no size exceeds `total` |
| Shares.SumZero | main.py:57 | `total` is zero exactly when every size is zero |
| Shares.ScaleSum | main.py:57-58 | the shares of some sizes add up to the share of their sum |
| Shares.SharesOfSumAddUp | main.py:57-58 | shares taken of the sizes' own total add up to exactly 100 |
| Shares.Percentages | main.py:57-58 | fails with a division by zero exactly when the list is non-empty and all zero; otherwise one percentage per size, adding up to 100 when there is any |
| Shares.PercentagesAreShares | main.py:58 | each percentage is its size's share of the kept total |
| Shares.PercentagesBounded | main.py:58 | every percentage lies between 0 and 100 |
| Shares.PercentagesMonotone | main.py:58 | a larger count never gets a smaller percentage |
| Colors.LanguageColor | main.py:31-36 | a table language gets its table colour; any other gets a palette colour, or the modulo-by-zero error when the palette is empty |
| Colors.TableColorIgnoresPosition | main.py:31-33 | a table language's colour does not depend on its position or the palette |
| Colors.FallbackWithinPalette | main.py:34-36 | below the palette's length a fallback colour is the palette entry at the bar's position |
| Colors.ChartColors | main.py:62 | the bar colours by position from 0; stated by `Colors.ColorsFrom` |
| Colors.ColorsFrom | main.py:62 | one colour per label, each what `get_language_color` gives at that position; it fails exactly when the palette is empty and some label is outside the table |
| Pipeline.SortedLangs | main.py:52 | `sorted_langs` over the dictionary's items in insertion order; its meaning is stated by `Ranking.RankMeaning` |
| Pipeline.TopLanguages | main.py:43-58 | the chart's series or the division error; its meaning is stated by `Pipeline.TopLanguagesMeaning` and `Pipeline.TopLanguagesFails` |
| Pipeline.TopLanguagesMeaning | main.py:43-58 | a successful run has `min(TOP_N, number of languages)` bars with distinct names and their totals, highest first, no omitted language above a shown one, each percentage its size's share of the kept total, adding up to 100 |
| Pipeline.TopLanguagesFails | main.py:57-58 | a run fails exactly when `TOP_N > 0`, some language is counted, and every counted total is zero |
| Pipeline.NoDataGivesEmptyChart | main.py:43-58 | when every reported pair is excluded, `lang_stats` is empty and the run yields empty series without an error |
| Pipeline.DefaultShowsAtMostEight | main.py:16 | with the shipped settings there are at most eight bars, and exactly eight when at least eight languages are counted |
| Examples.ExampleThreeLanguages | main.py:43-58 | Python 800, Go 150 and HTML 50 bytes give those bars in that order with 80, 15 and 5 percent |
| Examples.ExampleExclusion | main.py:47-58 | an excluded language's bytes do not dilute the others: Python 500 and JavaScript 500 give one bar at 100 percent |
| Examples.ExampleMerge | main.py:49-50 | Python 300 and Jupyter Notebook 200 give one Python total of 500 |

## Left out

- Loading the environment and credentials (main.py:11-13) and the HTTP calls to the GitHub API (main.py:39-41, 45). The listing call passes no paging parameters, so only the first page of repositories is seen; the model takes whatever repositories that call returned. Their results are the model's input: a sequence of repositories, each a sequence of (name, bytes) pairs. The JSON shapes are not checked.
- Input shape: a repository's breakdown is a Python dictionary, so it cannot repeat a name. The model allows repeats, which is a generalisation; every property holds with or without them.
- Rounding to two decimals in `round(..., 2)` (main.py:58) and the `.1f` label text (main.py:79). These are floating-point numerics. The model's percentages are exact reals, so "adds up to 100" holds for the unrounded shares only.
- The seaborn palette (main.py:9, 35) comes from a foreign library. It is a parameter of `LanguageColor`, an opaque sequence of colours. The script always asks for `TOP_N` colours.
- All drawing and output: matplotlib figure and styling, the reversed lists for bottom-to-top plotting, the gradient overlay, labels, `savefig` and `show` (main.py:8, 60-104).
- Colors.FallbackWithinPalette: states only positions below the palette's length, not the wrap-around of `index % len(colors)` at larger positions. The chart never has more bars than `TOP_N`, which is the palette's length.
- Colors.ColorsFrom: the colour list is not part of `Pipeline.TopLanguages`. The script computes it after the percentages, from `labels`, and the model states it separately.
- Tie order: the ranking properties hold for any enumeration of the dictionary. The pipeline's own order among equal counts is the dictionary's insertion order (`DictOrder`), but no lemma depends on it.
