/**
 * `train_test_mat`: the vocabulary and the training labels, the combined
 * train-then-test vector list, the distance-type check, the square distance
 * matrix, the cut to training columns, and the per-row ranking of training
 * indices by distance.
 */
module TrainTest {
  import opened Order
  import opened Documents

  /** Every feature name that occurs on a training line. */
  function TrainNames(train: seq<Line>): set<string>
  {
    if train == [] then {}
    else
      var names := Names(train[|train| - 1].feats);
      TrainNames(train[..|train| - 1]) + set x | x in names
  }

  /** The vocabulary: `sorted(list(vocab))` of the training names. */
  function Vocabulary(train: seq<Line>): seq<string>
  {
    SortedList(TrainNames(train))
  }

  /**
   * The first loop of `train_test_mat`: append each training label and add each
   * of the line's names to a set, then sort the set.
   */
  method ExtractVocabulary(train: seq<Line>) returns (vocab: seq<string>, labels: seq<string>)
    ensures Ascending(vocab)
    ensures forall x :: x in vocab <==> x in TrainNames(train)
    ensures vocab == Vocabulary(train)
    ensures |labels| == |train| && forall i :: 0 <= i < |train| ==> labels[i] == train[i].category
  {
    var names: set<string> := {};
    labels := [];
    for i := 0 to |train|
      invariant names == TrainNames(train[..i])
      invariant |labels| == i && forall p :: 0 <= p < i ==> labels[p] == train[p].category
    {
      var feats := Names(train[i].feats);
      labels := labels + [train[i].category];
      ghost var before := names;
      for p := 0 to |feats|
        invariant names == before + set x | x in feats[..p]
      {
        names := names + {feats[p]};
        assert feats[..p + 1] == feats[..p] + [feats[p]];
      }
      assert feats[..|feats|] == feats;
      assert train[..i + 1][..i] == train[..i];
    }
    assert train[..|train|] == train;
    vocab := SortedList(names);
  }

  /** The vectors of `lines`, in order. */
  function Vectors(lines: seq<Line>, vocab: seq<string>): (vs: seq<seq<nat>>)
  {
    seq(|lines|, i requires 0 <= i < |lines| => Vector(lines[i].feats, vocab))
  }

  /** The two `make_vec` loops of `train_test_mat`: training vectors first, then test vectors. */
  method CombinedVectors(train: seq<Line>, test: seq<Line>, vocab: seq<string>) returns (trainTest: seq<seq<nat>>)
    ensures |trainTest| == |train| + |test|
    ensures forall i :: 0 <= i < |train| ==> trainTest[i] == Vector(train[i].feats, vocab)
    ensures forall i :: 0 <= i < |test| ==> trainTest[|train| + i] == Vector(test[i].feats, vocab)
    ensures forall i :: 0 <= i < |trainTest| ==> |trainTest[i]| == |vocab|
    ensures trainTest == Vectors(train + test, vocab)
  {
    trainTest := [];
    for i := 0 to |train|
      invariant |trainTest| == i
      invariant forall p :: 0 <= p < i ==> trainTest[p] == Vector(train[p].feats, vocab)
    {
      var vec := MakeVec(train[i], vocab);
      trainTest := trainTest + [vec];
    }
    for i := 0 to |test|
      invariant |trainTest| == |train| + i
      invariant forall p :: 0 <= p < |train| ==> trainTest[p] == Vector(train[p].feats, vocab)
      invariant forall p :: 0 <= p < i ==> trainTest[|train| + p] == Vector(test[p].feats, vocab)
    {
      var vec := MakeVec(test[i], vocab);
      trainTest := trainTest + [vec];
    }
    ghost var lines := train + test;
    forall i | 0 <= i < |lines|
      ensures trainTest[i] == Vector(lines[i].feats, vocab)
    {
      if i >= |train| {
        assert lines[i] == test[i - |train|];
      }
    }
  }

  /** The two metrics `pdist` is asked for. */
  datatype Metric = Euclidean | Cosine

  /**
   * The distance `pdist` computes between two vectors under a metric. It is a
   * parameter of the model: the floating-point arithmetic stays outside it.
   */
  type Distance = (Metric, seq<nat>, seq<nat>) -> real

  const DistanceTypeMessage: string := "ERROR: distance_type must be 1 (Euclidean) or 2 (cosine)"

  /**
   * The result of `train_test_mat`: the error string; the ValueError `pdist`
   * raises when there is no vector at all (an empty array is not 2-D); or the
   * rankings with the training labels.
   */
  datatype TrainTestResult =
    | DistanceTypeError(message: string)
    | NoVectors
    | Ranked(ordInd: seq<seq<nat>>, labels: seq<string>)

  function ChosenMetric(distType: int): (m: Metric)
    requires distType == 1 || distType == 2
    ensures m == Euclidean <==> distType == 1
  {
    if distType == 1 then Euclidean else Cosine
  }

  /**
   * `squareform(pdist(vecs))`: `pdist` measures each pair i < j once, and
   * `squareform` mirrors it and puts zeros on the diagonal.
   */
  function SquareForm(vecs: seq<seq<nat>>, metric: Metric, dist: Distance): (d: seq<seq<real>>)
    ensures |d| == |vecs| && forall i :: 0 <= i < |d| ==> |d[i]| == |vecs|
    ensures forall i, j :: 0 <= i < |vecs| && 0 <= j < |vecs| ==> d[i][j] == d[j][i]
    ensures forall i :: 0 <= i < |vecs| ==> d[i][i] == 0.0
    ensures forall i, j :: 0 <= i < j < |vecs| ==> d[i][j] == dist(metric, vecs[i], vecs[j])
  {
    seq(|vecs|, i requires 0 <= i < |vecs| =>
      seq(|vecs|, j requires 0 <= j < |vecs| =>
        if i == j then 0.0
        else if i < j then dist(metric, vecs[i], vecs[j])
        else dist(metric, vecs[j], vecs[i])))
  }

  /** The distance matrix `train_test_mat` builds for these lines. */
  function Distances(train: seq<Line>, test: seq<Line>, metric: Metric, dist: Distance): seq<seq<real>>
  {
    SquareForm(Vectors(train + test, Vocabulary(train)), metric, dist)
  }

  /** `ord` lists each of 0 .. n-1 exactly once. */
  predicate IsRanking(ord: seq<nat>, n: nat)
  {
    && |ord| == n
    && (forall p :: 0 <= p < |ord| ==> ord[p] < n)
    && (forall x :: 0 <= x < n ==> x in ord)
    && Distinct(ord)
  }

  /** The indices in `ord` have non-decreasing values in `row`. */
  predicate SortedBy(ord: seq<nat>, row: seq<real>)
    requires forall p :: 0 <= p < |ord| ==> ord[p] < |row|
  {
    forall p, q :: 0 <= p < q < |ord| ==> row[ord[p]] <= row[ord[q]]
  }

  /** Put index j into a ranking, before the first index that is not closer than j. */
  function InsertByDistance(ord: seq<nat>, j: nat, row: seq<real>): (r: seq<nat>)
    requires j < |row| && forall p :: 0 <= p < |ord| ==> ord[p] < |row|
    ensures |r| == |ord| + 1
    ensures forall p :: 0 <= p < |r| ==> r[p] < |row|
  {
    if ord == [] then [j]
    else if row[j] <= row[ord[0]] then [j] + ord
    else [ord[0]] + InsertByDistance(ord[1..], j, row)
  }

  /** Inserting adds j and keeps every index. */
  lemma {:induction false} InsertByDistanceMembers(ord: seq<nat>, j: nat, row: seq<real>)
    requires j < |row| && forall p :: 0 <= p < |ord| ==> ord[p] < |row|
    ensures forall x :: x in InsertByDistance(ord, j, row) <==> x in ord || x == j
  {
    if ord != [] && row[j] > row[ord[0]] {
      InsertByDistanceMembers(ord[1..], j, row);
      assert ord == [ord[0]] + ord[1..];
    }
  }

  /** No index appears twice after inserting a new index into a ranking without repeats. */
  lemma {:induction false} InsertByDistanceDistinct(ord: seq<nat>, j: nat, row: seq<real>)
    requires j < |row| && forall p :: 0 <= p < |ord| ==> ord[p] < |row|
    requires j !in ord && Distinct(ord)
    ensures Distinct(InsertByDistance(ord, j, row))
  {
    var r := InsertByDistance(ord, j, row);
    if ord == [] {
    } else if row[j] <= row[ord[0]] {
      assert r == [j] + ord;
    } else {
      var tail := ord[1..];
      assert ord == [ord[0]] + tail;
      InsertByDistanceDistinct(tail, j, row);
      InsertByDistanceMembers(tail, j, row);
      var rest := InsertByDistance(tail, j, row);
      assert r == [ord[0]] + rest;
      assert ord[0] !in rest;
    }
  }

  /** Inserting into a ranking sorted by the row keeps it sorted. */
  lemma {:induction false} InsertByDistanceSorted(ord: seq<nat>, j: nat, row: seq<real>)
    requires j < |row| && forall p :: 0 <= p < |ord| ==> ord[p] < |row|
    requires SortedBy(ord, row)
    ensures SortedBy(InsertByDistance(ord, j, row), row)
  {
    if ord == [] {
    } else if row[j] <= row[ord[0]] {
      assert InsertByDistance(ord, j, row) == [j] + ord;
    } else {
      var tail := ord[1..];
      InsertByDistanceSorted(tail, j, row);
      InsertByDistanceMembers(tail, j, row);
      var rest := InsertByDistance(tail, j, row);
      forall q | 0 <= q < |rest|
        ensures row[ord[0]] <= row[rest[q]]
      {
        if rest[q] != j {
          assert rest[q] in rest;
          var p :| 0 <= p < |tail| && tail[p] == rest[q];
          assert ord[p + 1] == rest[q];
        }
      }
      assert InsertByDistance(ord, j, row) == [ord[0]] + rest;
    }
  }

  /**
   * `np.argsort` of one row: the indices of the row ordered by non-decreasing
   * value. Nothing is promised about the order of equal values.
   */
  method ArgSort(row: seq<real>) returns (ord: seq<nat>)
    ensures IsRanking(ord, |row|)
    ensures SortedBy(ord, row)
  {
    ord := [];
    for j := 0 to |row|
      invariant IsRanking(ord, j)
      invariant SortedBy(ord, row)
    {
      var next := InsertByDistance(ord, j, row);
      InsertByDistanceMembers(ord, j, row);
      InsertByDistanceSorted(ord, j, row);
      InsertByDistanceDistinct(ord, j, row);
      assert forall p :: 0 <= p < |next| ==> next[p] in ord || next[p] == j;
      ord := next;
    }
  }

  /** The column cut to the first nTrain columns, then `np.argsort(..., axis=1)`. */
  method RankRows(distMat: seq<seq<real>>, nTrain: nat) returns (ordInd: seq<seq<nat>>)
    requires forall i :: 0 <= i < |distMat| ==> nTrain <= |distMat[i]|
    ensures |ordInd| == |distMat|
    ensures forall i :: 0 <= i < |distMat| ==>
              IsRanking(ordInd[i], nTrain) && SortedBy(ordInd[i], distMat[i][..nTrain])
  {
    ordInd := [];
    for i := 0 to |distMat|
      invariant |ordInd| == i
      invariant forall p :: 0 <= p < i ==>
                  IsRanking(ordInd[p], nTrain) && SortedBy(ordInd[p], distMat[p][..nTrain])
    {
      var ord := ArgSort(distMat[i][..nTrain]);
      ordInd := ordInd + [ord];
    }
  }

  /**
   * `train_test_mat`: reject a distance type other than 1 or 2 with the error
   * string; otherwise rank, for every train and test vector, all training
   * indices by distance from it, and return those rankings with the labels.
   */
  method TrainTestMat(train: seq<Line>, test: seq<Line>, distType: int, dist: Distance) returns (out: TrainTestResult)
    ensures out.DistanceTypeError? <==> distType != 1 && distType != 2
    ensures out.DistanceTypeError? ==> out.message == DistanceTypeMessage
    ensures out.NoVectors? <==> (distType == 1 || distType == 2) && train == [] && test == []
    ensures out.Ranked? <==> (distType == 1 || distType == 2) && (train != [] || test != [])
    ensures out.Ranked? ==> |out.labels| == |train| && forall i :: 0 <= i < |train| ==> out.labels[i] == train[i].category
    ensures out.Ranked? ==> |out.ordInd| == |train| + |test|
    ensures out.Ranked? ==> (
              && (distType == 1 || distType == 2)
              && var d := Distances(train, test, ChosenMetric(distType), dist);
                 forall i :: 0 <= i < |out.ordInd| ==>
                   IsRanking(out.ordInd[i], |train|) && SortedBy(out.ordInd[i], d[i][..|train|]))
  {
    var vocab, labels := ExtractVocabulary(train);
    var trainTest := CombinedVectors(train, test, vocab);
    var metric: Metric;
    if distType == 1 {
      metric := Euclidean;
    } else if distType == 2 {
      metric := Cosine;
    } else {
      return DistanceTypeError(DistanceTypeMessage);
    }
    if trainTest == [] {
      return NoVectors;
    }
    var distMat := SquareForm(trainTest, metric, dist);
    var ordInd := RankRows(distMat, |train|);
    out := Ranked(ordInd, labels);
  }
}
