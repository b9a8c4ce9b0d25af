/**
 * `evaluate`: one prediction per document and the confusion matrix over the
 * training labels; and the two integer sums `print_conf_matrix` divides
 * (correct predictions and all predictions).
 */
module Evaluation {
  import opened Order
  import opened Documents
  import opened Votes

  /** `conf_matrix[true_label][predicted_label]`. */
  type Matrix = map<string, map<string, nat>>

  /** Rows and columns are both exactly `keys`. */
  ghost predicate SquareOver(m: Matrix, keys: set<string>)
  {
    m.Keys == keys && forall a :: a in m ==> m[a].Keys == keys
  }

  /** `{lab1: {lab2: 0 for lab2 in all_labels} for lab1 in all_labels}`. */
  function ZeroMatrix(keys: set<string>): (m: Matrix)
    ensures SquareOver(m, keys)
    ensures forall a, b :: a in keys && b in keys ==> m[a][b] == 0
  {
    map a | a in keys :: map b | b in keys :: 0
  }

  /** `conf_matrix[t][p] += 1`: that cell goes up by one, and no other cell or key changes. */
  function Increment(m: Matrix, t: string, p: string): (r: Matrix)
    requires t in m && p in m[t]
    ensures r.Keys == m.Keys && r[t].Keys == m[t].Keys
    ensures r[t][p] == m[t][p] + 1
    ensures forall b :: b in m[t] && b != p ==> r[t][b] == m[t][b]
    ensures forall a :: a in m && a != t ==> r[a] == m[a]
  {
    m[t := m[t][p := m[t][p] + 1]]
  }

  /** How many of the (true, predicted) pairs agree. */
  function Agreements(outcomes: seq<(string, string)>): nat
  {
    if outcomes == [] then 0
    else Agreements(outcomes[..|outcomes| - 1]) + (if outcomes[|outcomes| - 1].0 == outcomes[|outcomes| - 1].1 then 1 else 0)
  }

  /**
   * The matrix after counting these (true, predicted) pairs from zero, one
   * increment per pair.
   */
  function Confusion(keys: set<string>, outcomes: seq<(string, string)>): (m: Matrix)
    requires forall i :: 0 <= i < |outcomes| ==> outcomes[i].0 in keys && outcomes[i].1 in keys
    ensures m.Keys == keys
    decreases |outcomes|, 0
  {
    if outcomes == [] then ZeroMatrix(keys)
    else
      var init := outcomes[..|outcomes| - 1];
      var last := outcomes[|outcomes| - 1];
      ConfusionRow(keys, init, last.0);
      Increment(Confusion(keys, init), last.0, last.1)
  }

  /** Every row of the counted matrix has every label as a column. */
  lemma {:induction false} ConfusionRow(keys: set<string>, outcomes: seq<(string, string)>, a: string)
    requires forall i :: 0 <= i < |outcomes| ==> outcomes[i].0 in keys && outcomes[i].1 in keys
    requires a in keys
    ensures Confusion(keys, outcomes)[a].Keys == keys
    decreases |outcomes|, 1
  {
    if outcomes != [] {
      ConfusionRow(keys, outcomes[..|outcomes| - 1], a);
    }
  }

  lemma {:induction false} ConfusionSnoc(keys: set<string>, outcomes: seq<(string, string)>, pair: (string, string))
    requires forall i :: 0 <= i < |outcomes| ==> outcomes[i].0 in keys && outcomes[i].1 in keys
    requires pair.0 in keys && pair.1 in keys
    ensures pair.0 in Confusion(keys, outcomes) && pair.1 in Confusion(keys, outcomes)[pair.0]
    ensures Confusion(keys, outcomes + [pair]) == Increment(Confusion(keys, outcomes), pair.0, pair.1)
  {
    ConfusionRow(keys, outcomes, pair.0);
    assert (outcomes + [pair])[..|outcomes|] == outcomes;
  }

  /** The counted matrix is square over the labels. */
  lemma {:induction false} ConfusionSquare(keys: set<string>, outcomes: seq<(string, string)>)
    requires forall i :: 0 <= i < |outcomes| ==> outcomes[i].0 in keys && outcomes[i].1 in keys
    ensures SquareOver(Confusion(keys, outcomes), keys)
  {
    forall a | a in keys
      ensures Confusion(keys, outcomes)[a].Keys == keys
    {
      ConfusionRow(keys, outcomes, a);
    }
  }

  /** Every cell of the counted matrix holds the number of pairs that fall into it. */
  lemma {:induction false} ConfusionCell(keys: set<string>, outcomes: seq<(string, string)>, a: string, b: string)
    requires forall i :: 0 <= i < |outcomes| ==> outcomes[i].0 in keys && outcomes[i].1 in keys
    requires a in keys && b in keys
    ensures b in Confusion(keys, outcomes)[a] && Confusion(keys, outcomes)[a][b] == Count(outcomes, (a, b))
  {
    ConfusionRow(keys, outcomes, a);
    if outcomes != [] {
      var init := outcomes[..|outcomes| - 1];
      ConfusionCell(keys, init, a, b);
      ConfusionRow(keys, init, a);
    }
  }

  /** A row's entry for a column, 0 where the row has no such column. */
  function Entry(row: map<string, nat>, c: string): nat
  {
    if c in row then row[c] else 0
  }

  /** The entries of a row summed over the columns `cols`. */
  function RowOver(row: map<string, nat>, cols: seq<string>): nat
  {
    if cols == [] then 0 else Entry(row, cols[0]) + RowOver(row, cols[1..])
  }

  /** `sum(list(row.values()))`; the order of the addition does not matter, the sorted key order is used. */
  function RowTotal(row: map<string, nat>): nat
  {
    RowOver(row, SortedList(row.Keys))
  }

  /** The row totals summed over the rows `rows`. */
  function TotalOver(m: Matrix, rows: seq<string>): nat
  {
    if rows == [] then 0
    else (if rows[0] in m then RowTotal(m[rows[0]]) else 0) + TotalOver(m, rows[1..])
  }

  /** The diagonal entries summed over the rows `rows`. */
  function DiagonalOver(m: Matrix, rows: seq<string>): nat
  {
    if rows == [] then 0
    else (if rows[0] in m then Entry(m[rows[0]], rows[0]) else 0) + DiagonalOver(m, rows[1..])
  }

  /** `sum([sum(list(conf[i].values())) for i in labels])` over the sorted row labels: all predictions counted. */
  function TotalCount(m: Matrix): nat
  {
    TotalOver(m, SortedList(m.Keys))
  }

  /** `sum([conf[i][i] for i in labels])` over the sorted row labels: the correct predictions. */
  function CorrectCount(m: Matrix): nat
  {
    DiagonalOver(m, SortedList(m.Keys))
  }

  /** Raising one entry of a row raises its sum over duplicate-free columns by one if the column is among them. */
  lemma {:induction false} RowOverBump(row: map<string, nat>, p: string, cols: seq<string>)
    requires p in row
    requires Distinct(cols)
    ensures RowOver(row[p := row[p] + 1], cols) == RowOver(row, cols) + (if p in cols then 1 else 0)
  {
    if cols != [] {
      RowOverBump(row, p, cols[1..]);
      assert cols[0] == p ==> p !in cols[1..];
    }
  }

  /** An increment adds one to the totals over duplicate-free rows if its row is among them. */
  lemma {:induction false} TotalOverIncrement(m: Matrix, t: string, p: string, rows: seq<string>)
    requires t in m && p in m[t]
    requires Distinct(rows)
    ensures TotalOver(Increment(m, t, p), rows) == TotalOver(m, rows) + (if t in rows then 1 else 0)
  {
    if rows != [] {
      TotalOverIncrement(m, t, p, rows[1..]);
      if rows[0] == t {
        assert t !in rows[1..];
        RowTotalIncrement(m, t, p);
      }
    }
  }

  /** An increment adds one to its own row's total. */
  lemma {:induction false} RowTotalIncrement(m: Matrix, t: string, p: string)
    requires t in m && p in m[t]
    ensures RowTotal(Increment(m, t, p)[t]) == RowTotal(m[t]) + 1
  {
    var row := m[t];
    var bumped := row[p := row[p] + 1];
    assert Increment(m, t, p)[t] == bumped;
    assert bumped.Keys == row.Keys;
    var cols := SortedList(row.Keys);
    AscendingDistinct(cols);
    RowOverBump(row, p, cols);
  }

  /** An increment adds one to the diagonal over duplicate-free rows if it is a diagonal cell among them. */
  lemma {:induction false} DiagonalOverIncrement(m: Matrix, t: string, p: string, rows: seq<string>)
    requires t in m && p in m[t]
    requires Distinct(rows)
    ensures DiagonalOver(Increment(m, t, p), rows) == DiagonalOver(m, rows) + (if t == p && t in rows then 1 else 0)
  {
    if rows != [] {
      DiagonalOverIncrement(m, t, p, rows[1..]);
      assert rows[0] == t ==> t !in rows[1..];
    }
  }

  /** One increment adds one prediction to the total. */
  lemma {:induction false} TotalCountIncrement(m: Matrix, t: string, p: string)
    requires t in m && p in m[t]
    ensures TotalCount(Increment(m, t, p)) == TotalCount(m) + 1
  {
    var rows := SortedList(m.Keys);
    AscendingDistinct(rows);
    TotalOverIncrement(m, t, p, rows);
  }

  /** One increment adds one to the correct predictions exactly when the prediction is right. */
  lemma {:induction false} CorrectCountIncrement(m: Matrix, t: string, p: string)
    requires t in m && p in m[t]
    ensures CorrectCount(Increment(m, t, p)) == CorrectCount(m) + (if t == p then 1 else 0)
  {
    var rows := SortedList(m.Keys);
    AscendingDistinct(rows);
    DiagonalOverIncrement(m, t, p, rows);
  }

  lemma {:induction false} RowOverZero(row: map<string, nat>, cols: seq<string>)
    requires forall c :: c in row ==> row[c] == 0
    ensures RowOver(row, cols) == 0
  {
    if cols != [] {
      RowOverZero(row, cols[1..]);
    }
  }

  lemma {:induction false} ZeroOver(m: Matrix, rows: seq<string>)
    requires forall a, b :: a in m && b in m[a] ==> m[a][b] == 0
    ensures TotalOver(m, rows) == 0 && DiagonalOver(m, rows) == 0
  {
    if rows != [] {
      ZeroOver(m, rows[1..]);
      if rows[0] in m {
        RowOverZero(m[rows[0]], SortedList(m[rows[0]].Keys));
      }
    }
  }

  /**
   * Counting the pairs one by one: all cells add up to the number of pairs,
   * and the diagonal to the number of pairs that agree.
   */
  lemma {:induction false} ConfusionTotals(keys: set<string>, outcomes: seq<(string, string)>)
    requires forall i :: 0 <= i < |outcomes| ==> outcomes[i].0 in keys && outcomes[i].1 in keys
    ensures TotalCount(Confusion(keys, outcomes)) == |outcomes|
    ensures CorrectCount(Confusion(keys, outcomes)) == Agreements(outcomes)
  {
    var m := Confusion(keys, outcomes);
    if outcomes == [] {
      ZeroOver(m, SortedList(m.Keys));
    } else {
      var init := outcomes[..|outcomes| - 1];
      var last := outcomes[|outcomes| - 1];
      ConfusionTotals(keys, init);
      var prev := Confusion(keys, init);
      TotalCountIncrement(prev, last.0, last.1);
      CorrectCountIncrement(prev, last.0, last.1);
    }
  }

  /** At most all pairs agree, and all of them do exactly when none disagrees. */
  lemma {:induction false} AgreementsBound(outcomes: seq<(string, string)>)
    ensures Agreements(outcomes) <= |outcomes|
    ensures Agreements(outcomes) == |outcomes| <==> forall i :: 0 <= i < |outcomes| ==> outcomes[i].0 == outcomes[i].1
  {
    if outcomes != [] {
      var init := outcomes[..|outcomes| - 1];
      AgreementsBound(init);
      assert forall i :: 0 <= i < |init| ==> init[i] == outcomes[i];
    }
  }

  /**
   * The accuracy `correct / total` of a confusion matrix lies in [0, 1], and is
   * 1 exactly when every prediction is right.
   */
  lemma {:induction false} Accuracy(keys: set<string>, outcomes: seq<(string, string)>)
    requires forall i :: 0 <= i < |outcomes| ==> outcomes[i].0 in keys && outcomes[i].1 in keys
    ensures CorrectCount(Confusion(keys, outcomes)) <= TotalCount(Confusion(keys, outcomes)) == |outcomes|
    ensures (CorrectCount(Confusion(keys, outcomes)) == TotalCount(Confusion(keys, outcomes)))
              <==> (forall i :: 0 <= i < |outcomes| ==> outcomes[i].0 == outcomes[i].1)
  {
    ConfusionTotals(keys, outcomes);
    AgreementsBound(outcomes);
  }

  function LabelSet(labels: seq<string>): set<string>
  {
    set l | l in labels
  }

  /** The first n documents have a neighbour list, carry a training label and have at least one neighbour. */
  ghost predicate AllScorable(data: seq<Line>, labels: seq<string>, votes: seq<seq<string>>, n: nat)
    requires n <= |data|
  {
    forall i :: 0 <= i < n ==> i < |votes| && data[i].category in labels && votes[i] != []
  }

  /** One entry of `results`: `[t_label, ord_p]`. */
  datatype Prediction = Prediction(truth: string, votes: seq<Vote>)

  /** What `evaluate` returns, or the exception it raises at its line 91 or 95. */
  datatype Evaluation =
    | Evaluated(results: seq<Prediction>, matrix: Matrix)
    | MissingNeighbours(doc: nat)            // IndexError: k_labels[i]
    | UnknownLabel(doc: nat, truth: string)  // KeyError: conf_matrix[t_label]
    | NoVotes(doc: nat)                      // IndexError: ord_p[0]

  /** Every entry has a top vote `ord_p[0]`. */
  predicate AllVoted(results: seq<Prediction>)
  {
    forall j :: 0 <= j < |results| ==> results[j].votes != []
  }

  /** The (true label, top vote) pair of each entry: the cell `evaluate` counts it in. */
  function Pairs(results: seq<Prediction>): (o: seq<(string, string)>)
    requires AllVoted(results)
    ensures |o| == |results|
  {
    if results == [] then []
    else
      var last := results[|results| - 1];
      Pairs(results[..|results| - 1]) + [(last.truth, last.votes[0].category)]
  }

  /** m is the matrix counted from the pairs o, all of which are pairs of labels. */
  ghost predicate Tallied(m: Matrix, keys: set<string>, o: seq<(string, string)>)
  {
    && (forall i :: 0 <= i < |o| ==> o[i].0 in keys && o[i].1 in keys)
    && m == Confusion(keys, o)
  }

  /** Counting one more entry's pair into the matrix of the earlier entries gives the matrix of all of them. */
  lemma {:induction false} TalliedStep(m: Matrix, keys: set<string>, results: seq<Prediction>, p: Prediction)
    requires AllVoted(results) && p.votes != []
    requires Tallied(m, keys, Pairs(results))
    requires p.truth in keys && p.votes[0].category in keys
    ensures AllVoted(results + [p])
    ensures p.truth in m && p.votes[0].category in m[p.truth]
    ensures Tallied(Increment(m, p.truth, p.votes[0].category), keys, Pairs(results + [p]))
  {
    var after := results + [p];
    assert after[..|results|] == results;
    var before := Pairs(results);
    var pair := (p.truth, p.votes[0].category);
    assert Pairs(after) == before + [pair];
    assert forall i :: 0 <= i < |before| ==> Pairs(after)[i] == before[i];
    ConfusionSnoc(keys, before, pair);
  }

  /** Every neighbour label is a training label. */
  ghost predicate VotesAreLabels(votes: seq<seq<string>>, labels: seq<string>)
  {
    forall i, x :: 0 <= i < |votes| && x in votes[i] ==> x in labels
  }

  lemma {:induction false} NeighbourListsAreLabels(labels: seq<string>, ordInd: seq<seq<nat>>, k: int)
    requires ValidRows(ordInd, |labels|)
    ensures VotesAreLabels(NeighbourLists(labels, ordInd, k), labels)
  {
    var votes := NeighbourLists(labels, ordInd, k);
    forall i, x | 0 <= i < |votes| && x in votes[i]
      ensures x in labels
    {
      NeighbourIsLabel(labels, ordInd[i], k, x);
    }
  }

  /** results holds, in order, the entries of the first |results| documents: each true label with its ranked votes. */
  ghost predicate Scored(data: seq<Line>, votes: seq<seq<string>>, results: seq<Prediction>)
  {
    && |results| <= |data| && |results| <= |votes|
    && forall j :: 0 <= j < |results| ==> results[j] == Prediction(data[j].category, MostCommon(votes[j]))
  }

  /**
   * Scoring document i: its ranking has a top vote, that vote is a training
   * label, and counting the pair keeps the matrix tallied.
   */
  lemma {:induction false} TabulateStep(m: Matrix, data: seq<Line>, labels: seq<string>, votes: seq<seq<string>>, results: seq<Prediction>, i: nat)
    requires i < |data| && i < |votes|
    requires VotesAreLabels(votes, labels)
    requires AllVoted(results) && Tallied(m, LabelSet(labels), Pairs(results))
    requires data[i].category in m && votes[i] != []
    ensures MostCommon(votes[i]) != []
    ensures AllVoted(results + [Prediction(data[i].category, MostCommon(votes[i]))])
    ensures MostCommon(votes[i])[0].category in m[data[i].category]
    ensures Tallied(Increment(m, data[i].category, MostCommon(votes[i])[0].category), LabelSet(labels),
                    Pairs(results + [Prediction(data[i].category, MostCommon(votes[i]))]))
  {
    MostCommonEmpty(votes[i]);
    PredictWins(votes[i]);
    var top := MostCommon(votes[i])[0].category;
    assert top == Predict(votes[i]) && top in labels;
    var p := Prediction(data[i].category, MostCommon(votes[i]));
    TalliedStep(m, LabelSet(labels), results, p);
  }

  /** Appending document i's entry to the entries of the documents before it. */
  lemma {:induction false} ScoredSnoc(data: seq<Line>, votes: seq<seq<string>>, results: seq<Prediction>)
    requires |results| < |data| && |results| < |votes|
    requires Scored(data, votes, results)
    ensures var i := |results|;
      Scored(data, votes, results + [Prediction(data[i].category, MostCommon(votes[i]))])
  {
    var i := |results|;
    var p := Prediction(data[i].category, MostCommon(votes[i]));
    assert forall j :: 0 <= j < i ==> (results + [p])[j] == results[j];
  }

  /**
   * The loop of `evaluate`, given the neighbour labels of every document:
   * rank each document's votes and count (true label, top vote) in the
   * confusion matrix over the training labels.
   */
  method Tabulate(data: seq<Line>, labels: seq<string>, votes: seq<seq<string>>) returns (out: Evaluation)
    requires VotesAreLabels(votes, labels)
    ensures out.Evaluated? <==> AllScorable(data, labels, votes, |data|)
    ensures out.MissingNeighbours? ==>
              && out.doc < |data| && AllScorable(data, labels, votes, out.doc)
              && out.doc == |votes|
    ensures out.UnknownLabel? ==>
              && out.doc < |data| && out.doc < |votes| && AllScorable(data, labels, votes, out.doc)
              && out.truth == data[out.doc].category && out.truth !in labels
    ensures out.NoVotes? ==>
              && out.doc < |data| && out.doc < |votes| && AllScorable(data, labels, votes, out.doc)
              && data[out.doc].category in labels && votes[out.doc] == []
    ensures out.Evaluated? ==>
              && |out.results| == |data|
              && forall i :: 0 <= i < |data| ==> out.results[i] == Prediction(data[i].category, MostCommon(votes[i]))
    ensures out.Evaluated? ==>
              && AllVoted(out.results)
              && Tallied(out.matrix, LabelSet(labels), Pairs(out.results))
  {
    var allLabels := LabelSet(labels);
    var confMatrix := ZeroMatrix(allLabels);
    var results: seq<Prediction> := [];
    for i := 0 to |data|
      invariant AllScorable(data, labels, votes, i)
      invariant |results| == i && Scored(data, votes, results)
      invariant AllVoted(results) && Tallied(confMatrix, allLabels, Pairs(results))
    {
      var tLabel := data[i].category;
      if i >= |votes| {
        assert !AllScorable(data, labels, votes, |data|);
        return MissingNeighbours(i);
      }
      var ordP := MostCommon(votes[i]);
      MostCommonEmpty(votes[i]);
      if tLabel !in confMatrix {
        assert tLabel !in labels && !AllScorable(data, labels, votes, |data|);
        return UnknownLabel(i, tLabel);
      }
      if ordP == [] {
        assert !AllScorable(data, labels, votes, |data|);
        return NoVotes(i);
      }
      assert tLabel in allLabels;
      assert AllScorable(data, labels, votes, i + 1);
      TabulateStep(confMatrix, data, labels, votes, results, i);
      ScoredSnoc(data, votes, results);
      results := results + [Prediction(tLabel, ordP)];
      confMatrix := Increment(confMatrix, tLabel, ordP[0].category);
    }
    out := Evaluated(results, confMatrix);
  }

  /**
   * `evaluate`: the labels of each document's k nearest training documents,
   * then the loop above over them.
   */
  method Evaluate(data: seq<Line>, labels: seq<string>, ordInd: seq<seq<nat>>, k: int) returns (out: Evaluation)
    requires ValidRows(ordInd, |labels|)
    ensures var votes := NeighbourLists(labels, ordInd, k);
            out.Evaluated? <==> AllScorable(data, labels, votes, |data|)
    ensures out.MissingNeighbours? ==>
              && out.doc < |data| && AllScorable(data, labels, NeighbourLists(labels, ordInd, k), out.doc)
              && out.doc == |ordInd|
    ensures var votes := NeighbourLists(labels, ordInd, k);
            out.UnknownLabel? ==>
              && out.doc < |data| && out.doc < |votes| && AllScorable(data, labels, votes, out.doc)
              && out.truth == data[out.doc].category && out.truth !in labels
    ensures var votes := NeighbourLists(labels, ordInd, k);
            out.NoVotes? ==>
              && out.doc < |data| && out.doc < |votes| && AllScorable(data, labels, votes, out.doc)
              && data[out.doc].category in labels && votes[out.doc] == []
    ensures var votes := NeighbourLists(labels, ordInd, k);
            out.Evaluated? ==>
              && |out.results| == |data|
              && forall i :: 0 <= i < |data| ==> out.results[i] == Prediction(data[i].category, MostCommon(votes[i]))
    ensures out.Evaluated? ==>
              && AllVoted(out.results)
              && Tallied(out.matrix, LabelSet(labels), Pairs(out.results))
              && TotalCount(out.matrix) == |data|
              && CorrectCount(out.matrix) == Agreements(Pairs(out.results))
  {
    var kLabels := GenerateResults(labels, ordInd, k);
    NeighbourListsAreLabels(labels, ordInd, k);
    out := Tabulate(data, labels, kLabels);
    if out.Evaluated? {
      ConfusionTotals(LabelSet(labels), Pairs(out.results));
    }
  }
}
