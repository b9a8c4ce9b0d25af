# kNN text classifier: vectors, neighbour ranking, vote ranking, confusion matrix

This project models the core of a k-nearest-neighbour document classifier (`kNN_utilities.py`) in Dafny.

Input documents come in svmlight form: a label followed by `name:count` pairs. For each run the classifier does the following:
- builds a sorted vocabulary of the feature names seen in training;
- turns every training and test document into a count vector in vocabulary order (`make_vec`);
- rejects a distance selector other than 1 (Euclidean) or 2 (cosine) with an error string;
- ranks, for every document, all training documents by distance (`train_test_mat`);
- takes the labels of the k nearest (`generate_results`);
- ranks those labels the way `Counter.most_common` does;
- counts each document's (true label, top vote) pair in a confusion matrix over the training labels (`evaluate`);
- sums the matrix and its diagonal for the accuracy report (`print_conf_matrix`).

Modules:
- `Order` (order.dfy): Python's `<` on strings and `sorted` of a set of strings.
- `Documents` (documents.dfy): a document as a label with its pairs; the feature dict; `make_vec`.
- `TrainTest` (train_test.dfy): the vocabulary and label loop, the combined vector list, the metric check, the square distance matrix, the cut to training columns, and the per-row ranking.
- `Votes` (votes.dfy): `generate_results`, the counter (`Counter`), and its ranking (`most_common`).
- `Evaluation` (evaluation.dfy): the zero matrix, the per-document loop of `evaluate` with its two failure points, and the two integer sums of `print_conf_matrix`.

The loops of the source stay loops, in these methods: `MakeVec`, `ExtractVocabulary`, `CombinedVectors`, `ArgSort`, `RankRows`, `GenerateResults` and `Tabulate`. Each is proved against a specification function or predicate, and the lemmas around that function prove what the source promises.

Four points of the code that shape the model:
- Neighbour ranking. `np.argsort` uses its default sort, which is not stable. The model therefore promises no order among equal distances.
- The value of k. k is never checked. Any integer k has Python's slice meaning, so a negative k drops entries from the end.
- The distance selector. It is checked only after the vocabulary and the vectors are built. `TrainTestMat` follows the same order.
- No vectors at all. With no training and no test line, `pdist` receives an empty array, which is not 2-D, and raises ValueError. `TrainTestMat` returns `NoVectors` for that case.

## Model

| member | source | states |
|---|---|---|
| Order.BelowIrreflexive | kNN_utilities.py:41 | No string sorts before itself under Python's string order |
| Order.BelowAsymmetric | kNN_utilities.py:41 | If a sorts before b, then b does not sort before a |
| Order.BelowTransitive | kNN_utilities.py:41 | Python's string order is transitive |
| Order.BelowTotal | kNN_utilities.py:41 | Of two different strings, one sorts before the other |
| Order.AscendingDistinct | kNN_utilities.py:41 | A strictly ascending list has no repeated entry |
| Order.SortedList | kNN_utilities.py:41 | `sorted(list(s))` is strictly ascending, holds exactly the elements of s, and has length \|s\| |
| Order.AscendingUnique | kNN_utilities.py:41 | Two strictly ascending lists with the same elements are equal, so `sorted` has one possible answer |
| Documents.FeatureMap | kNN_utilities.py:18 | The keys of the feature dict are exactly the names that occur on the line |
| Documents.FeatureMapLast | kNN_utilities.py:18 | A repeated name keeps the count of its last pair on the line |
| Documents.MakeVec | kNN_utilities.py:13-25 | The vector has length \|vocab\|. Entry i is 0 when vocab[i] is not on the line, otherwise the count of the last pair named vocab[i]. The result equals the specification `Vector` |
| Documents.VectorIgnoresUnknown | kNN_utilities.py:18-23 | Inserting a pair whose name is outside the vocabulary, at any position, leaves the vector unchanged |
| Documents.SameCountWithout | kNN_utilities.py:18 | Removing a pair with another name changes neither whether x is a key nor x's count |
| TrainTest.ExtractVocabulary | kNN_utilities.py:32-41 | The vocabulary is strictly ascending and holds exactly the names of training lines, so test-only names are absent. labels has one entry per training line, in input order, each that line's label |
| TrainTest.CombinedVectors | kNN_utilities.py:43-48 | One vector per line, training lines first and then test lines, each of length \|vocab\| and equal to that line's `make_vec` vector |
| TrainTest.ChosenMetric | kNN_utilities.py:51-55 | Selector 1 picks Euclidean and 2 picks cosine |
| TrainTest.SquareForm | kNN_utilities.py:60 | The matrix is N×N and symmetric, with zero diagonal, and entry (i, j) for i < j is the pair distance |
| TrainTest.InsertByDistance | kNN_utilities.py:65 | Inserting index j lengthens the ranking by one and keeps every index inside the row |
| TrainTest.InsertByDistanceMembers | kNN_utilities.py:65 | After insertion, the ranking holds exactly the old indices plus j |
| TrainTest.InsertByDistanceDistinct | kNN_utilities.py:65 | Inserting a new index into a ranking without repeats gives a ranking without repeats |
| TrainTest.InsertByDistanceSorted | kNN_utilities.py:65 | Inserting into a ranking in non-decreasing distance order keeps that order |
| TrainTest.ArgSort | kNN_utilities.py:65 | The ranking of one row is a permutation of 0..n-1, in non-decreasing distance |
| TrainTest.RankRows | kNN_utilities.py:63-65 | After the cut to the first \|train\| columns, every row's ranking is a permutation of the training indices, in non-decreasing distance |
| TrainTest.TrainTestMat | kNN_utilities.py:27-67 | The outcome is fixed by the inputs. A selector other than 1 or 2 gives the error string, and only then. With selector 1 or 2 and no line at all, the result is `NoVectors` (pdist's ValueError). In every other case the result is the rankings: one label per training line; one ranking per combined vector; each ranking a permutation of 0..\|train\|-1 sorted by that vector's distances |
| Votes.Slice | kNN_utilities.py:73 | `line[:k]` is a prefix of length min(k, n) for k ≥ 0, and max(0, n + k) for negative k |
| Votes.NeighbourLabels | kNN_utilities.py:73-74 | One label per kept index, in rank order: entry p is the label of row[p] |
| Votes.NeighbourIsLabel | kNN_utilities.py:74 | Every neighbour label is a training label |
| Votes.GenerateResults | kNN_utilities.py:69-77 | One list per ranking row. List i holds the labels of row i's first k indices, in rank order, with the slice's length |
| Votes.FirstIndexIsFirst | kNN_utilities.py:92 | No earlier position holds the label whose first occurrence is taken |
| Votes.BumpSpec | kNN_utilities.py:91 | Counting a new label appends it with count 1. Counting a known label raises only its count, by one, in place |
| Votes.Tally | kNN_utilities.py:91 | `Counter(k_labels[i])`, as a list of (label, count) in insertion order. It has no contract of its own; its meaning is proved by TallyCounts, TallyTotal and TallyOfDistinct |
| Votes.TallyCounts | kNN_utilities.py:91 | `Counter(xs)` holds each label of xs with its number of occurrences, in the order of first occurrence |
| Votes.TallyOfDistinct | kNN_utilities.py:91 | An exact counter names every label once |
| Votes.TallyStep | kNN_utilities.py:91 | Counting one more label keeps the counter exact |
| Votes.BumpTotal | kNN_utilities.py:91 | Counting one label raises the sum of the counts by one |
| Votes.TallyTotal | kNN_utilities.py:91 | The counts of `Counter(xs)` add up to \|xs\| |
| Votes.InsertByCount | kNN_utilities.py:92 | One insertion step of the count sort lengthens the list by one |
| Votes.InsertByCountPerm | kNN_utilities.py:92 | An insertion step is a permutation of the old votes plus the new one |
| Votes.InsertByCountTotal | kNN_utilities.py:92 | An insertion step adds the new vote's count to the total |
| Votes.SortByCount | kNN_utilities.py:92 | The count sort keeps the length |
| Votes.SortByCountPerm | kNN_utilities.py:92 | The count sort is a permutation of the counter and keeps its total |
| Votes.InsertByCountRanked | kNN_utilities.py:92 | Inserting a vote that first occurs later than every listed vote keeps the list ranked: count descending, equal counts by first occurrence |
| Votes.SortByCountRanked | kNN_utilities.py:92 | Sorting a counter in first-occurrence order by count, keeping equal counts in order, ranks it by count descending and then first occurrence |
| Votes.MostCommon | kNN_utilities.py:92 | `.most_common()` of that counter. It has no contract of its own; its meaning is proved by MostCommonSpec, MostCommonCounts and MostCommonEmpty |
| Votes.MostCommonSpec | kNN_utilities.py:91-92 | `most_common()` is ranked by count descending, with equal counts by first occurrence. Each count is exact, every label appears, the counts sum to \|xs\|, and the list is empty iff xs is |
| Votes.MostCommonCounts | kNN_utilities.py:91-92 | Every ranked vote carries its label's exact count, and every label of xs has a vote |
| Votes.TopVoteBeats | kNN_utilities.py:92 | The first vote of such a ranking has the largest count, and among equal counts it occurs first |
| Votes.MostCommonEmpty | kNN_utilities.py:92-95 | The ranking is empty exactly when there are no neighbour labels; then `ord_p[0]` fails |
| Votes.Predict | kNN_utilities.py:95 | `ord_p[0][0]`, the predicted label. It has no contract of its own; its meaning is proved by PredictWins |
| Votes.PredictWins | kNN_utilities.py:92-95 | The predicted label `ord_p[0][0]` is a neighbour label. No label occurs more often, and among labels that occur as often it occurs first |
| Evaluation.ZeroMatrix | kNN_utilities.py:85 | The initial matrix is square over the labels and every cell is 0 |
| Evaluation.Increment | kNN_utilities.py:95 | `conf_matrix[t][p] += 1` raises that cell by one. It changes no key, no other cell of row t, and no other row |
| Evaluation.Confusion | kNN_utilities.py:85-95 | The matrix after counting pairs from zero has exactly the labels as row keys |
| Evaluation.ConfusionRow | kNN_utilities.py:85-95 | Every row of the counted matrix has every label as a column |
| Evaluation.ConfusionSnoc | kNN_utilities.py:95 | Counting one more pair is one increment of that pair's cell |
| Evaluation.ConfusionSquare | kNN_utilities.py:85-95 | The counted matrix stays square over the training labels |
| Evaluation.ConfusionCell | kNN_utilities.py:89-95 | Cell (a, b) holds the number of documents with true label a and top vote b |
| Evaluation.RowOverBump | kNN_utilities.py:144 | Raising one entry raises a row's sum over distinct columns by one if that column is among them |
| Evaluation.TotalOverIncrement | kNN_utilities.py:144 | An increment raises the sum over distinct rows by one if its row is among them |
| Evaluation.RowTotalIncrement | kNN_utilities.py:144 | An increment raises its row's total by one |
| Evaluation.DiagonalOverIncrement | kNN_utilities.py:145 | An increment raises the diagonal sum over distinct rows by one if it is a diagonal cell among them |
| Evaluation.TotalCountIncrement | kNN_utilities.py:144 | Each increment adds one to `total` |
| Evaluation.CorrectCountIncrement | kNN_utilities.py:145 | An increment adds one to `correct` exactly when the prediction equals the truth |
| Evaluation.RowOverZero | kNN_utilities.py:144 | A row of zeros sums to 0 |
| Evaluation.ZeroOver | kNN_utilities.py:144-145 | The zero matrix has total 0 and diagonal 0 |
| Evaluation.TotalCount | kNN_utilities.py:144 | `total`, the sum of all row sums over the sorted labels. It has no contract of its own; its meaning is proved by ConfusionTotals and Accuracy |
| Evaluation.CorrectCount | kNN_utilities.py:145 | `correct`, the diagonal sum over the sorted labels. It has no contract of its own; its meaning is proved by ConfusionTotals and Accuracy |
| Evaluation.ConfusionTotals | kNN_utilities.py:144-145 | After counting n pairs, `total` is n and `correct` is the number of pairs whose truth and prediction agree |
| Evaluation.AgreementsBound | kNN_utilities.py:145 | At most all pairs agree. All agree exactly when no pair disagrees |
| Evaluation.Accuracy | kNN_utilities.py:144-147 | `correct` ≤ `total` = number of documents. They are equal (accuracy 1) exactly when every prediction is right |
| Evaluation.Pairs | kNN_utilities.py:95 | One (true label, top vote) pair per result entry |
| Evaluation.TalliedStep | kNN_utilities.py:94-95 | Appending an entry and incrementing its cell keeps the matrix equal to the count of all entries' pairs |
| Evaluation.NeighbourListsAreLabels | kNN_utilities.py:74 | Every neighbour label in every list is a training label |
| Evaluation.TabulateStep | kNN_utilities.py:91-95 | For a known true label and a non-empty vote list, the top vote is a matrix column. Counting it keeps the matrix tallied |
| Evaluation.ScoredSnoc | kNN_utilities.py:94 | Appending document i's entry keeps `results` equal to the entries of the documents so far, in order |
| Evaluation.Tabulate | kNN_utilities.py:84-97 | The loop completes iff every document has a ranking row, a training label and a neighbour. Otherwise it stops at the first failing document: IndexError, KeyError or IndexError, in source order. On completion there is one [true label, most_common] entry per document, in order, and the matrix counts their pairs |
| Evaluation.Evaluate | kNN_utilities.py:79-97 | `evaluate` as a whole: the same outcomes over the neighbour lists of `generate_results`. On completion, `total` is \|data\| and `correct` is the number of right predictions |

## Left out

- build_kNN.py is not part of this model. It reads files and argv and calls these functions in order.
- Parsing. Each line is taken already split into its label and its `name:count` pairs, with counts as natural numbers. The regular expressions at kNN_utilities.py:8-10 are not modelled, nor is the AttributeError raised for a line without a label.
- Distance values. `pdist` is the function parameter `dist` of `TrainTestMat`. Its floating-point arithmetic, and the NaN that cosine gives for an all-zero vector, are not modelled. `squareform`'s mirroring and zero diagonal are modelled. Its other input checks are not modelled (`NoVectors` covers the one input this code can produce that fails them).
- TrainTest.ArgSort: promises no order among equal distances, because `np.argsort`'s default sort is not stable. Its own insertion order is one of the orders numpy may return.
- Documents.MakeVec: counts are unbounded naturals. The int64 limit of the numpy array is not modelled.
- gen_output writes a file and prints the float `count / k`. It is I/O and floating point.
- print_conf_matrix prints, and divides `correct / total` in floating point. Only the integer sums `total` and `correct` are modelled (`TotalCount`, `CorrectCount`, lines 144-145, and the same expressions at 156-157). `Accuracy` states the bounds that the division would see. When `total` is 0, the source divides by zero; that is not modelled.
- Evaluation.Tabulate: what the caller does with a failure is not modelled. The source raises, and the model returns `MissingNeighbours`, `UnknownLabel` or `NoVotes` with the document index.
- TrainTest.TrainTestMat: returns the error string instead of the pair, as the source does. The failure this causes when a caller unpacks the pair is the caller's and is not modelled.
