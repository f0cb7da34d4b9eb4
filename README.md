# XSMB tail statistics — a verified model

The repository collects the results of the northern Vietnamese lottery
(XSMB) from a results page and studies the "tails" — the last two digits
of every prize number — over the last 60 or 90 days. It has two parts,
which this project models:

- **The crawler** (`crawler.py`). It walks the tables of the results page in
  document order. Each table is classified: a *loto table* (header "Đầu" /
  "Loto"), a *result table* (prize labels, or at least 20 numbers), or
  neither. Its raw tails are then extracted and normalised to at most 27
  two-digit strings. A day with fewer than 20 tails is dropped. An
  accepted day is keyed by the date above the table, or by a synthetic
  `day_NN` key, with `#2`, `#3`, … appended on a collision. The walk stops
  once `max_days` days are stored.
- **The statistics engine** (`bayes.py`). It builds the 100-bucket histogram
  of tails "00".."99", applies Dirichlet smoothing, computes the chi-square
  statistic against the uniform distribution, and ranks the tails by their
  posterior probability.

The project has four modules:

- `Text` (`text.dfy`) models the Python string operations the code relies
  on: `isdigit`, `zfill(2)`, `[-2:]`, `lower()`, `f"{n:02d}"` and
  `" ".join`. It also models the two `re.findall` patterns `\b\d{2}\b` and
  `\b\d{2,5}\b`: they match exactly the maximal runs of word characters
  made only of digits and of the right length.
- `Crawler` (`crawler.dfy`):
  - A table is a datatype: rows of `<th>`/`<td>` cells with their text,
    plus the date text found above it, if any.
  - The two extractors are methods with loops. The result extractor's two
    loops (`for td`, `for m`) are one method each, `AppendRowTails` and
    `AppendCellTails`. They sit under a loop over the rows, `ExtractResultTails`,
    which stands for the document-order walk of `find_all("td")`.
  - `Crawl` is the main loop. Its body is `CrawlBody`: `TablePairs`
    classifies and extracts, and `StoreDay` keys and stores an accepted
    day, with the `while key in results` suffix loop in its own method,
    `ResolveKey`.
  - The specification of the loop, `CrawlSpec`, first turns each table
    into a *sighting* (`Observe`): whether it passes both guards, the date
    text above it, and its normalised tails. `Step` is one pass of the loop
    body over a sighting.
  - Each method is proved equal to a recursive specification function, and
    the properties are lemmas about those functions.
- `Bayes` (`bayes.dfy`):
  - `counts_from_days` is a method: the loop that flattens the day lists,
    then the tally.
  - Smoothing, the chi-square statistic and ranking are functions over
    exact `real` arithmetic.
- `Pipeline` (`pipeline.dfy`) connects the two parts: counting the days the
  crawler keeps.

## Model

| member | source | states |
|---|---|---|
| Text.Format02RoundTrip | bayes.py:15 | `f"{i:02d}"` of i < 100 is a two-digit string that reads back as i |
| Text.TwoDigitsRoundTrip | bayes.py:15-16 | every two-digit string denotes a number below 100 whose `:02d` form is the string itself, so every tail names one bucket |
| Text.TailValue | crawler.py:103 | `p.zfill(2)[-2:]` of a digit string p is two digits and denotes p modulo 100 |
| Text.NumberTokensSound | crawler.py:69 | every match of `\b\d{lo,hi}\b` is a string of lo to hi digits |
| Text.WordsAreMaximalRuns | crawler.py:94 | every word the tokeniser splits off is a maximal run of word characters: non-empty, with a non-word character or an end of the text on each side, as `\b` demands |
| Text.NumberTokensAreRuns | crawler.py:94 | every match of `\b\d{lo,hi}\b` is a run of lo to hi digits that occurs in the text with no word character directly before or after it |
| Text.NumberTokensOfJoin | crawler.py:80 | the matches in the space-joined text of the cells are the matches in each cell, cell after cell |
| Text.NumberTokensLower | crawler.py:75-80 | lower-casing the table text changes none of its numeric matches |
| Text.WordsSplit | crawler.py:75 | a non-word character, such as the joining space, separates the words on its two sides |
| Text.SelectTwoOfTwoToFive | crawler.py:69 | the `\b\d{2}\b` matches are the length-two matches of `\b\d{2,5}\b` |
| Crawler.IsLotoTable | crawler.py:53-58 | definition: the table has a first row, some cell of it contains "đầu" after lower-casing, and some cell contains "loto" |
| Crawler.IsLotoTableReadsHeader | crawler.py:53-58 | two tables whose first rows hold the same cell texts up to case, whatever the cell kinds, agree on the loto test; a table without rows is not a loto table |
| Crawler.LooksLikeResultTable | crawler.py:73-81 | definition: the lower-cased table text contains a prize label ("g.đb", "g.db", "giải đặc biệt", "g.1") or at least 20 numbers of 2 to 5 digits; ResultHeuristicCountsTails relates the count to the extractor |
| Crawler.Classify | crawler.py:129-132 | definition: the loto test first, the result heuristic only when it fails, otherwise unrelated; ClassifyPrecedence states the consequences |
| Crawler.AppendLotoRow | crawler.py:65-69 | one row adds the two-digit numbers of its last cell when it has at least two cells, and nothing otherwise |
| Crawler.ExtractLotoPairs | crawler.py:61-70 | the extraction loop returns the loto tails of the table: the header row skipped, rows of fewer than two cells skipped, the two-digit numbers of each last cell in order |
| Crawler.LotoPairsTwoDigits | crawler.py:69 | every loto tail is exactly two digits |
| Crawler.LotoPairsReadsLastCells | crawler.py:64-68 | the loto extractor reads only the size and last cell of each row after the header: tables that agree there give the same tails |
| Crawler.AppendCellTails | crawler.py:94-96 | the token loop appends `m[-2:]` for every 2-to-5-digit number of one cell, in order |
| Crawler.AppendCell | crawler.py:91-96 | a `<td>` cell adds the tails of its numbers; a `<th>` cell adds nothing |
| Crawler.AppendRowTails | crawler.py:91-96 | the cell loop appends the tails of the `<td>` cells of one row and skips `<th>` cells |
| Crawler.ExtractResultTails | crawler.py:84-97 | the extraction loops return the result tails of the whole table, row by row |
| Crawler.ResultTailsAsTokens | crawler.py:91-96 | one tail per 2-to-5-digit number of the `<td>` cells, in cell then number order, duplicates kept; each tail is the number's last two digits and its value modulo 100 |
| Crawler.ResultTailsTwoDigits | crawler.py:95 | every result tail is exactly two digits |
| Crawler.CleanPairs | crawler.py:103 | the filtered list is no longer than the input and holds only two-digit strings |
| Crawler.CleanPairsOne | crawler.py:103 | a non-digit token (the empty one included) is dropped, "7" becomes "07", "123" becomes "23", a two-digit token is kept |
| Crawler.CleanPairsAppend | crawler.py:103 | the filter works token by token: the result for a + b is the result for a followed by that for b |
| Crawler.CleanPairsOfTails | crawler.py:103 | a list of two-digit strings passes the filter unchanged |
| Crawler.NormalizeDayPairs | crawler.py:100-106 | the result is a prefix of the filtered tails of at most 27 entries, and it is all of them unless it has exactly 27 |
| Crawler.NormalizeDayPairsShape | crawler.py:100-106 | the result is the first min(27, n) of the n filtered tails, in input order, all two digits |
| Crawler.NormalizeDayPairsIdempotent | crawler.py:100-106 | normalising a normalised day changes nothing |
| Crawler.ClassifyPrecedence | crawler.py:129-132 | the loto test comes first; the result extractor runs exactly when the loto test fails and the table has a prize label or at least 20 numbers; other tables give no tails and are never kept |
| Crawler.ResultHeuristicCountsTails | crawler.py:73-81 | for a `<td>`-only table without a prize label, the heuristic holds exactly when the result extractor yields at least 20 tails |
| Crawler.TdTableAcceptedIffResult | crawler.py:131-140 | such a table, when not a loto table, is kept as a day exactly when it is classified as a result table |
| Crawler.FreeSuffixSound | crawler.py:147-151 | the suffix search ends at a free key, and every earlier attempt was taken |
| Crawler.ResolveKey | crawler.py:147-151 | the `while key in results` loop terminates with the first free key among `base`, `base#2`, `base#3`, … |
| Crawler.UniqueKeyFresh | crawler.py:149-151 | the key given to a day is not yet taken, and it is the base key exactly when that is free |
| Crawler.SecondKeyGetsSuffix | crawler.py:149-151 | a taken base key D becomes D#2 when D#2 is free |
| Crawler.SyntheticKeyShape | crawler.py:145 | `day_NN` is "day_" followed by the counter's digits, which read back as the counter: exactly two of them below 100, more from 100 on (`day_100`) |
| Crawler.StepCounter | crawler.py:142-153 | the synthetic counter advances only for a sighting that passed both guards and has no date; a rejected sighting changes nothing; an accepted one appends one day with its normalised tails and keeps the earlier days |
| Crawler.TablePairs | crawler.py:127-132 | the classify-and-extract head of the loop body gives the loto tails for a loto table, else the result tails for a result table, else nothing |
| Crawler.StoreDay | crawler.py:142-153 | an accepted day is stored under its date, or under the next `day_NN` with the counter advanced, made unique by the suffix loop, after the earlier days |
| Crawler.CrawlBody | crawler.py:126-156 | one pass of the loop body is one `Step` over the table's sighting, and it breaks exactly when the table was stored and the result reached max_days entries |
| Crawler.Crawl | crawler.py:122-159 | the loop over the tables returns the specification's result: the sighting steps in document order, stopping after the insertion that reaches max_days |
| Crawler.CrawlSpecValues | crawler.py:126-156 | the stored days are the normalised tails of the accepted tables in document order, cut after max_days (at least one) |
| Crawler.CrawlSpecSize | crawler.py:155-156 | at most max_days days when max_days >= 1, never more than the accepted tables, and fewer only when every accepted table is stored |
| Crawler.CrawlSpecDayShape | crawler.py:137-140 | every stored day has 20 to 27 tails, each two digits |
| Crawler.CrawlSpecDistinctKeys | crawler.py:142-153 | no two stored days share a key |
| Crawler.RejectedSightingIgnored | crawler.py:134-140 | from any state, a rejected sighting can be removed from the walk without changing the result |
| Crawler.RejectedTableIgnored | crawler.py:134-140 | removing a table that yields no tails, or fewer than 20 after normalising, does not change the result |
| Crawler.SameDateTwiceFrom | crawler.py:142-153 | from the empty result, with max_days >= 2, two accepted sightings under the same non-empty date D are stored under the keys D and D#2 |
| Crawler.SameDateTwice | crawler.py:142-153 | a page of two accepted tables under the same non-empty date D, with max_days >= 2, gives the keys D and D#2 |
| Bayes.CountsFromDays | bayes.py:10-19 | the flatten-and-tally returns the 100-row count table of all tails, the caps "00".."99", N equal to the total of the counts and to the number of two-digit tails, and the number of days |
| Bayes.CountTable | bayes.py:14-16 | the table has exactly 100 rows; CapsInOrder and CountTableCounts state each row's cap and count |
| Bayes.CapsInOrder | bayes.py:15 | row i has the cap whose value is i, so the caps ascend from "00" to "99" |
| Bayes.CapMatches | bayes.py:15-16 | bucket i counts a tail exactly when the tail is two digits with value i |
| Bayes.CountTableCounts | bayes.py:14-16 | each bucket holds the number of occurrences of its cap, and 0 exactly when the cap never occurs |
| Bayes.CountTableTotal | bayes.py:14-17 | N, the total of the 100 buckets, is the number of tails that are two-digit strings |
| Bayes.CountTableTotalOfTails | bayes.py:11-17 | when every tail is two digits, N is the total length of the day lists |
| Bayes.DirichletSmoothing | bayes.py:21-25 | the smoothed table has the same rows with cap and count unchanged |
| Bayes.Frequency | bayes.py:23 | definition: `count / max(N, 1)`; FrequenciesZero and FrequenciesSumToOne state its properties |
| Bayes.Posterior | bayes.py:24 | definition: `(count + alpha0/100) / (N + alpha0)`, defined only when N + alpha0 != 0; PosteriorSumsToOne, PosteriorBounds and PosteriorMonotone state its properties |
| Bayes.PosteriorSumsToOne | bayes.py:24 | with alpha0 > 0 and the counts summing to N, the posteriors sum to exactly 1 |
| Bayes.PosteriorBounds | bayes.py:24 | under the same conditions every posterior lies strictly between 0 and 1 |
| Bayes.PosteriorMonotone | bayes.py:24 | with N + alpha0 > 0, a row's count is at most another's exactly when its posterior is |
| Bayes.FrequenciesZero | bayes.py:23 | with N = 0 every frequency is 0 |
| Bayes.FrequenciesSumToOne | bayes.py:23 | with N >= 1 and the counts summing to N, the frequencies sum to 1 |
| Bayes.ChiTermFacts | bayes.py:31 | each term `(count - E)^2 / E` is non-negative and is zero exactly when count = E |
| Bayes.ChiSquareSumZero | bayes.py:31 | the statistic is non-negative and is zero exactly when every count equals N/100 |
| Bayes.ChiSquareTest | bayes.py:27-33 | N <= 0 gives (0, 1); otherwise the statistic is non-negative and the p-value is the chi-square survival of the statistic at 99 degrees of freedom |
| Bayes.ChiSquareTestProperties | bayes.py:27-33 | N <= 0 gives (0, 1); otherwise the statistic is non-negative, zero exactly when every count is N/100, and its p-value is the chi-square survival at 99 degrees of freedom |
| Bayes.Insert | bayes.py:36 | inserting a row into an ordered table gives an ordered permutation of the table plus the row |
| Bayes.Rank | bayes.py:35-36 | the ranked table is a permutation of the input with posteriors non-increasing row by row |
| Bayes.NonIncreasingPairs | bayes.py:36 | row-by-row order gives the order of every pair: an earlier row never has a smaller posterior |
| Pipeline.CrawledCounts | bayes.py:10-17 | counting the crawled days gives N equal to the number of crawled tails, between 20 and 27 per day |

## Left out

- Fetching the page (`fetch_html`), the choice of URL by window, and the `time.sleep` are I/O. `Crawler.Crawl` takes the page's tables as its input.
- HTML parsing and navigation are not modelled. The rows and cells of a table, their kind and their text are given. Nested tables are not represented.
- `_nearest_date_key` and the date pattern are not modelled. Each table carries the date text found above it as an `Option`, and an empty text counts as no date, as `if not key` does.
- Crawler.TableText: the whole-table `get_text(" ", strip=True)` is modelled as the cell texts joined by single spaces. Whitespace inside cells and text outside cells is not modelled.
- Crawler.IsLotoTable: the header cells' `get_text(strip=True)` (no separator) is modelled by the same cell text as elsewhere. The two differ only for cells with inner markup.
- Text.IsWordChar: `\w` and `\d` are taken over ASCII. Python also counts other Unicode letters and digits, so a number directly touching a Vietnamese letter is a match here but not in Python.
- Text.LowerChar: `lower()` covers ASCII and the upper-case letters used in Vietnamese. All other characters are left unchanged.
- The result mapping is modelled as an ordered sequence of (key, tails) pairs, because a Dafny `map` has no insertion order. The input of `counts_from_days` is such a sequence.
- Floating point: counts, frequencies, posteriors and the statistic are exact reals. No claim is made about float rounding.
- Counts are natural numbers (`CountRow.count: nat`). The app also passes uploaded CSV tables to the smoothing, the chi-square test and the ranking, and their `count` column can hold negative or fractional numbers. Those tables are outside the model.
- Bayes.DirichletSmoothing: requires N + alpha0 != 0. There pandas would divide by zero and produce inf or nan.
- Bayes.ChiSquareTest: the p-value `chi2.sf(stat, 99)` is kept symbolic as `Chi2Survival(stat, 99)`. The scipy special function is not modelled.
- Bayes.Rank: says nothing about the order of rows with equal posteriors. The source's sort is not stable, so it promises no such order.
- app.py (the user interface, CSV export and the top-k filter) is not part of this model. Neither are the multi-window hits and judgement labels: their code is not among the modelled files.
