# Lexical similarity over ASJP word lists — a verified Dafny model

This project models the core of a small Python library (`similarity.py`) that
compares languages using word lists from the ASJP database. A language's word
list maps concepts such as "stone" to phonetic forms written in the ASJP
transcription alphabet. Two languages are compared in three steps:

1. **Weighted Levenshtein distance** between two forms (`levenshtein_distance`).
   Insertion and deletion cost 1. A substitution costs 0 for equal symbols,
   the vowel weight when both symbols are ASJP vowels (`3 a e E i o u`), and 1
   otherwise. The Python fills a `(len1+1) x (len2+1)` table.
2. **Concept score** (`concept_nld`). This is the mean normalised distance
   (NLD) over every pair of forms the two languages give for one concept. The
   NLD of a pair is the distance divided by the longer length, and 0 for two
   empty forms. The score is 0 when there is no pair.
3. **Language score** (`Wordlist.mean_nld`). This is the mean concept score
   over the concepts both word lists share. `statistics.mean` raises when they
   share none.

The registry (`ASJP`) loads one word list per database row. Each row keeps
only its non-empty concept columns, split on `", "`. Word lists are folded
into a dictionary keyed by ISO code. A new word list replaces the stored one
unless it has strictly fewer concepts. Looking up a missing code raises
`KeyError`.

Files and modules:

- `outcomes.dfy` (`Outcomes`): `Option` for Python's `None`, and `Result`
  with the two exceptions the core raises (`KeyError`, `StatisticsError`).
- `edit_distance.dfy` (`EditDistance`): `Distance`, the edit distance defined
  by recursion on prefixes. `LevenshteinDistance` is the table fill on an
  `array2<real>`; its inner loop is `FillRow`, and one cell is `Cell`. The
  loop invariants state that `dp[i, j]` is the distance between the first `i`
  and `j` symbols. The file also holds the lemmas about `Distance`.
- `concepts.dfy` (`Concepts`): `Nld`, and the row-by-row list of pair NLDs
  (`PairNlds`). `MeanPairNld` is what `concept_nld` returns.
  `ConceptNld` is the nested loop that appends to a running list, and
  `FormNld` is the body of its inner loop. The file
  also holds `Sum` and `Mean` (for `statistics.mean`) and the symmetry proof.
- `wordlists.dfy` (`Wordlists`): the `Wordlist` datatype with `Len`, `Get`
  and `MeanNld`, and the lemmas on order independence and symmetry.
- `asjp.dfy` (`Asjp`): `Split` and `Join` for `", "`, and the row-to-concepts
  comprehension. `Merge` and `Fold` are the replace-unless-smaller rule. The
  `Registry` class has a map field, filled by its constructor's loop.

Numbers are exact `real`s. Python rounds at every table addition, every
division and every mean; the model computes the exact values.

Two facts worth stating explicitly:

- On a duplicate ISO code with equal concept counts the later row wins:
  `similarity.py:207` replaces unless the new list is strictly smaller.
  `Merge` and `FoldKeepsLastLongest` state this rule.
- `distance("tan", "ston") = 2.0` (insert `s`, keep `t`, substitute vowel `a`
  by `o`, keep `n`), so the NLD is 0.5. `DistanceTanSton` and `StoneExample`
  prove these values.

## Model

| member | source | states |
|---|---|---|
| EditDistance.LevenshteinDistance | similarity.py:27-78 | The table fill returns the weighted edit distance of the two strings, with `None` read as `""`. Its loop invariants state that `dp[p, q]` is the distance between the first `p` and `q` symbols. |
| EditDistance.FillRow | similarity.py:59-76 | Given row `i - 1` of the table holding the distances from the first `i - 1` symbols, the inner loop leaves row `i` holding the distances from the first `i` symbols to every prefix of the second string, and changes no other row. |
| EditDistance.Cell | similarity.py:60-76 | From three neighbours that hold the right distances, the sub_cost branches and the three-way minimum give the distance between the first `i` and the first `j` symbols. |
| EditDistance.DistanceStep | similarity.py:72-76 | The cell `(i, j)` is the least of deletion, insertion and substitution over the three neighbouring prefixes. |
| EditDistance.DistanceFromEmpty | similarity.py:52-56 | Row 0 and column 0 hold the lengths: `distance("", t) = |t|` and `distance(s, "") = |s|`. |
| EditDistance.DistanceNonNegative | similarity.py:58-76 | With a non-negative vowel weight, every distance is at least 0. |
| EditDistance.DistanceToSelf | similarity.py:63-64 | With a non-negative vowel weight, a string is at distance 0 from itself. |
| EditDistance.DistanceZeroOnlyIfEqual | similarity.py:58-76 | With a positive vowel weight, distance 0 implies the strings are equal. |
| EditDistance.DistanceZeroIff | similarity.py:58-76 | With a positive vowel weight, the distance is 0 exactly when the strings are equal (both directions). |
| EditDistance.DistanceSymmetric | similarity.py:63-76 | `distance(a, b) = distance(b, a)` for every vowel weight, since both cost tests are symmetric. |
| EditDistance.DistanceAtMostRepeat | similarity.py:58-76 | The distance is at most the longer length times any unit cost that is at least 1 and at least the vowel weight, written as a repeated sum. |
| EditDistance.DistanceUpperBound | similarity.py:58-76 | `distance(a, b) <= max(|a|, |b|) * unitCost` for any `unitCost >= max(1, vowelWeight)`. |
| EditDistance.DistanceAtMostLonger | similarity.py:63-76 | With a vowel weight at most 1, `distance(a, b) <= max(|a|, |b|)`. |
| EditDistance.DistanceSingleSymbol | similarity.py:63-71 | For one-symbol strings: identical symbols give 0; two distinct vowels from `"3aeEiou"` give `min(vowelWeight, 2)`; any other distinct pair gives 1. |
| EditDistance.TanStonRowT | similarity.py:50-76 | Row `t` of the table for `tan` against `ston`: 1, 1, 2, 3. |
| EditDistance.TanStonRowTa | similarity.py:50-76 | Row `ta` of the table for `tan` against `ston`: 2, 2, 2, 3. |
| EditDistance.DistanceTanSton | similarity.py:50-78 | Under the default weight, `distance("tan", "ston") = 2`. |
| Concepts.Nld | similarity.py:95-100 | A pair's normalised distance lies in [0, 1], and is 0 exactly when the two forms are equal; two empty forms give 0. |
| Concepts.NldSymmetric | similarity.py:95-100 | The normalised distance does not depend on the order of the pair. |
| Concepts.RowNlds | similarity.py:94-101 | The inner loop's contribution for form `a` has one entry per form `b`, namely `Nld(a, b)`, in order. |
| Concepts.PairNlds | similarity.py:92-101 | The appended list has `|forms1| * |forms2|` entries, all in [0, 1]. |
| Concepts.PairNldsAt | similarity.py:92-101 | Entry `i * |forms2| + j` of the list is the NLD of `forms1[i]` and `forms2[j]`, so the list covers the whole Cartesian product. |
| Concepts.SumAppend | similarity.py:103-105 | The sum of a concatenation is the sum of the sums of its parts. |
| Concepts.SumRemove | similarity.py:163-168 | Taking out element `k` lowers the sum by exactly that element. |
| Concepts.SumBounds | similarity.py:103-105 | A list of numbers in [0, 1] sums to a value between 0 and its length. |
| Concepts.MeanInUnitInterval | similarity.py:103-105 | The mean of a non-empty list of numbers in [0, 1] lies in [0, 1]. |
| Concepts.MeanPairNld | similarity.py:103-105 | The concept score lies in [0, 1], and is 0 when either form list is empty. |
| Concepts.SumPairNlds | similarity.py:92-105 | The sum of all pair NLDs equals the row-by-row total. |
| Concepts.RowSumStep | similarity.py:93-101 | Adding one form to the inner list adds that pair's NLD to the row's sum. |
| Concepts.RowTotalsSymmetric | similarity.py:92-101 | The double sum over `forms1 x forms2` equals the double sum over `forms2 x forms1`. |
| Concepts.MeanPairNldSymmetric | similarity.py:92-105 | The concept score does not depend on which language comes first. |
| Concepts.FormNld | similarity.py:95-100 | One pass of the inner loop body (distance with default weight, divided by the longer length, 0 for two empty forms) gives exactly `Nld(a, b)`. |
| Concepts.ConceptNld | similarity.py:81-105 | The nested loops that call the distance with default weight, normalise and append, then average, return exactly `MeanPairNld`: 0 with no pair, otherwise the mean over all pairs. |
| Wordlists.Wordlist.Get | similarity.py:139-141 | Returns a concept's forms when the concept is present, and `KeyError` otherwise. |
| Wordlists.Wordlist.MeanNld | similarity.py:143-168 | Fails with `StatisticsError` exactly when the shared-concept set is empty; otherwise returns a value in [0, 1]. |
| Wordlists.EnumerationExists | similarity.py:157-159 | Every shared-concept set can be visited in some order, so `MeanNld`'s order parameter can always be supplied. |
| Wordlists.DropEnumerated | similarity.py:163-168 | Removing one concept from an iteration order leaves an iteration order of the remaining set. |
| Wordlists.DropKeepsDistinct | similarity.py:157-168 | Removing one concept from an order without repetitions leaves an order without repetitions. |
| Wordlists.DropKeepsMembers | similarity.py:157-168 | Removing position `k` from an order of the shared set leaves exactly the set without that concept. |
| Wordlists.EnumerationLength | similarity.py:157-168 | An iteration order of the shared set has exactly one entry per shared concept, so the comprehension has as many scores as there are shared concepts. |
| Wordlists.ScoresDrop | similarity.py:163-168 | Dropping a concept from the order drops exactly its score from the comprehension's list. |
| Wordlists.SumScoresDrop | similarity.py:163-168 | Dropping a concept from the order lowers the sum of the scores by exactly that concept's score. |
| Wordlists.ScoresSumOrderIndependent | similarity.py:163-168 | Any two iteration orders of the same concepts give score lists of equal length and equal sum. |
| Wordlists.MeanNldOrderIndependent | similarity.py:157-168 | `mean_nld` gives the same result for every iteration order of the shared concepts. |
| Wordlists.MeanNldSymmetric | similarity.py:157-168 | `a.mean_nld(b) = b.mean_nld(a)`: the shared set is the same, and each concept score is symmetric. |
| Wordlists.StoneExample | similarity.py:143-168 | Word lists `{"stone": ["tan"]}` and `{"stone": ["ston"]}` have mean NLD 0.5. |
| Asjp.Split | similarity.py:196 | `split(", ")` gives at least one piece, even for `""`. |
| Asjp.SplitJoin | similarity.py:196 | Joining the pieces of `split(", ")` with `", "` gives back the input. |
| Asjp.JoinEmptyFirst | similarity.py:196 | An empty first piece contributes only its separator to the joined text. |
| Asjp.JoinExtendFirst | similarity.py:196 | A symbol added in front of the first piece appears in front of the joined text. |
| Asjp.SplitFirstIsPrefix | similarity.py:196 | The first piece of `split(", ")` is a prefix of the input. |
| Asjp.SplitNoSeparator | similarity.py:196 | No piece of `split(", ")` contains `", "`. |
| Asjp.RowConcepts | similarity.py:195-199 | The row's concept map has exactly the non-empty columns (both directions), and each has at least one form. |
| Asjp.RowConceptsJoin | similarity.py:195-199 | The forms of each concept, joined with `", "`, give back the column's text. |
| Asjp.Load | similarity.py:195-200 | A row's word list is stored under the row's ISO code, and every concept in it has at least one form. |
| Asjp.LoadAll | similarity.py:188-200 | One word list per row, in row order. |
| Asjp.Merge | similarity.py:205-209 | The row's code is added and the other codes keep their lists. The stored list is the new one or the old one, and it has at least as many concepts as both. On a tie the new (later) list is stored. |
| Asjp.FoldStep | similarity.py:188-209 | Loading one more row merges its word list into the registry built from the rows before it. |
| Asjp.FoldKeys | similarity.py:188-209 | The registry holds exactly the ISO codes that occur in the rows. |
| Asjp.FoldWellFormed | similarity.py:195-209 | Every stored word list has at least one form per concept. |
| Asjp.FoldKeepsLastLongest | similarity.py:201-209 | The list stored for a code comes from a row with that code that has the most concepts. Every later row with that code has strictly fewer, so among the largest the last row wins. |
| Asjp.WinnerFirst | similarity.py:205-209 | The first row for a code is stored. |
| Asjp.WinnerStays | similarity.py:205-208 | A row for another code, or with strictly fewer concepts, leaves the stored list in place. |
| Asjp.WinnerReplaced | similarity.py:205-209 | A row for the code with at least as many concepts replaces the stored list. |
| Asjp.Registry.constructor | similarity.py:174-209 | The loop leaves the registry equal to the fold of the loaded rows, and every stored word list has at least one form per concept. |
| Asjp.Registry.Get | similarity.py:211-213 | Returns the stored word list for a present code, and `KeyError` for a missing one; in a valid registry the returned word list has at least one form per concept. |

## Left out

- Opening the database file, `csv.DictReader`, UTF-8 handling and the slicing of column names (similarity.py:183-187). These are I/O. A row arrives as an ISO code plus a map from concept column to text.
- `Wordlist.iso` and `Wordlist.name`, and the row's `names` column. They are informational and take no part in any computation.
- `Wordlists.Wordlist.Len` (`__len__`) has no contract. It is the size of the concept map, and `Merge` and the fold lemmas use it directly.
- Floating point: every number is an exact `real`, so IEEE-754 rounding (at each table addition, each NLD division and each `statistics.mean`) is not modelled. A NaN or infinite vowel weight cannot be expressed.
- Python's set iteration order is unspecified. `Wordlists.Wordlist.MeanNld` takes it as a parameter `order`, required to list the shared concepts once each, and the result is proved not to depend on it.
- Python's `min` returns the first of equal floats. Exact reals make that choice invisible.
- `str.split` is modelled only for the separator `", "` without `maxsplit`, the only use in the core.
