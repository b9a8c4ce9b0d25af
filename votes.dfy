/**
 * `generate_results` (the labels of the first k ranked training indices) and
 * the vote ranking `Counter(labels).most_common()`.
 */
module Votes {

  function Min(a: int, b: int): int { if a <= b then a else b }
  function Max(a: int, b: int): int { if a <= b then b else a }

  /** Python's slice `row[:k]`; a negative k drops the last -k entries. */
  function Slice(row: seq<nat>, k: int): (p: seq<nat>)
    ensures |p| == if k >= 0 then Min(k, |row|) else Max(0, |row| + k)
    ensures p == row[..|p|]
  {
    if k >= 0 then (if k <= |row| then row[..k] else row)
    else (if -k <= |row| then row[..|row| + k] else [])
  }

  /** `[train_labels[i] for i in line[:k]]`. */
  function NeighbourLabels(trainLabels: seq<string>, row: seq<nat>, k: int): (ls: seq<string>)
    requires forall p :: 0 <= p < |row| ==> row[p] < |trainLabels|
    ensures |ls| == |Slice(row, k)|
    ensures forall p :: 0 <= p < |ls| ==> ls[p] == trainLabels[row[p]]
  {
    var ind := Slice(row, k);
    seq(|ind|, p requires 0 <= p < |ind| => trainLabels[ind[p]])
  }

  /** Every neighbour's label is one of the training labels. */
  lemma {:induction false} NeighbourIsLabel(trainLabels: seq<string>, row: seq<nat>, k: int, x: string)
    requires forall p :: 0 <= p < |row| ==> row[p] < |trainLabels|
    requires x in NeighbourLabels(trainLabels, row, k)
    ensures x in trainLabels
  {
    var xs := NeighbourLabels(trainLabels, row, k);
    var p :| 0 <= p < |xs| && xs[p] == x;
    assert xs[p] == trainLabels[row[p]];
  }

  /** Every ranked index names a training label. */
  predicate ValidRows(ordInd: seq<seq<nat>>, n: nat)
  {
    forall i, p :: 0 <= i < |ordInd| && 0 <= p < |ordInd[i]| ==> ordInd[i][p] < n
  }

  /** The neighbour labels of every ranking row. */
  function NeighbourLists(trainLabels: seq<string>, ordInd: seq<seq<nat>>, k: int): seq<seq<string>>
    requires ValidRows(ordInd, |trainLabels|)
  {
    seq(|ordInd|, i requires 0 <= i < |ordInd| => NeighbourLabels(trainLabels, ordInd[i], k))
  }

  /** `generate_results`: for every ranking row, the labels of its first k indices, in rank order. */
  method GenerateResults(trainLabels: seq<string>, ordInd: seq<seq<nat>>, k: int) returns (results: seq<seq<string>>)
    requires ValidRows(ordInd, |trainLabels|)
    ensures |results| == |ordInd|
    ensures forall i :: 0 <= i < |ordInd| ==>
              |results[i]| == if k >= 0 then Min(k, |ordInd[i]|) else Max(0, |ordInd[i]| + k)
    ensures forall i :: 0 <= i < |ordInd| ==> results[i] == NeighbourLabels(trainLabels, ordInd[i], k)
    ensures results == NeighbourLists(trainLabels, ordInd, k)
  {
    results := [];
    for i := 0 to |ordInd|
      invariant |results| == i
      invariant forall p :: 0 <= p < i ==> results[p] == NeighbourLabels(trainLabels, ordInd[p], k)
    {
      var indices := Slice(ordInd[i], k);
      var labels := seq(|indices|, p requires 0 <= p < |indices| => trainLabels[indices[p]]);
      results := results + [labels];
    }
  }

  /** One entry of a `Counter`: a label and how often it was seen. */
  datatype Vote = Vote(category: string, count: nat)

  /** How often x occurs in xs. */
  function Count<T(==)>(xs: seq<T>, x: T): nat
  {
    if xs == [] then 0
    else Count(xs[..|xs| - 1], x) + (if xs[|xs| - 1] == x then 1 else 0)
  }

  lemma {:induction false} CountAbsent(xs: seq<string>, x: string)
    requires x !in xs
    ensures Count(xs, x) == 0
  {
    if xs != [] {
      assert x !in xs[..|xs| - 1];
      CountAbsent(xs[..|xs| - 1], x);
    }
  }

  /** The position of the first occurrence of x in xs (see FirstIndexIsFirst). */
  function FirstIndex(xs: seq<string>, x: string): (r: nat)
    requires x in xs
    ensures r < |xs| && xs[r] == x
  {
    var init := xs[..|xs| - 1];
    if x in init then FirstIndex(init, x) else |xs| - 1
  }

  lemma {:induction false} FirstIndexIsFirst(xs: seq<string>, x: string)
    requires x in xs
    ensures forall j :: 0 <= j < FirstIndex(xs, x) ==> xs[j] != x
  {
    var init := xs[..|xs| - 1];
    if x in init {
      FirstIndexIsFirst(init, x);
    }
  }

  /** The labels of a list of votes, in order. */
  function Categories(c: seq<Vote>): (ls: seq<string>)
    ensures |ls| == |c| && forall p :: 0 <= p < |c| ==> ls[p] == c[p].category
  {
    seq(|c|, p requires 0 <= p < |c| => c[p].category)
  }

  predicate DistinctCategories(c: seq<Vote>)
  {
    forall p, q :: 0 <= p < q < |c| ==> c[p].category != c[q].category
  }

  /** `counter[x] += 1` on an insertion-ordered counter: bump x's entry, or append a new one. */
  function Bump(c: seq<Vote>, x: string): seq<Vote>
  {
    if c == [] then [Vote(x, 1)]
    else if c[0].category == x then [Vote(x, c[0].count + 1)] + c[1..]
    else [c[0]] + Bump(c[1..], x)
  }

  /** A new label gets a vote of 1 at the end; a known label's vote goes up by one and nothing else changes. */
  lemma {:induction false} BumpSpec(c: seq<Vote>, x: string)
    requires DistinctCategories(c)
    ensures x !in Categories(c) ==> Bump(c, x) == c + [Vote(x, 1)]
    ensures x in Categories(c) ==> (
              && |Bump(c, x)| == |c|
              && forall p :: 0 <= p < |c| ==>
                   Bump(c, x)[p] == if c[p].category == x then Vote(x, c[p].count + 1) else c[p])
  {
    if c != [] {
      assert Categories(c) == [c[0].category] + Categories(c[1..]);
      BumpSpec(c[1..], x);
      if c[0].category != x {
        assert c == [c[0]] + c[1..];
      }
    }
  }

  /** Each vote names a label of xs and carries its number of occurrences. */
  ghost predicate CountsOf(xs: seq<string>, c: seq<Vote>)
  {
    forall p :: 0 <= p < |c| ==> c[p].category in xs && c[p].count == Count(xs, c[p].category)
  }

  /** Every label of xs has a vote. */
  ghost predicate Covers(xs: seq<string>, c: seq<Vote>)
  {
    forall x :: x in xs ==> x in Categories(c)
  }

  /** The votes are in the order of their labels' first occurrence in xs. */
  ghost predicate InFirstOccurrenceOrder(xs: seq<string>, c: seq<Vote>)
  {
    forall p, q :: 0 <= p < q < |c| ==>
      c[p].category in xs && c[q].category in xs &&
      FirstIndex(xs, c[p].category) < FirstIndex(xs, c[q].category)
  }

  /**
   * c is the `Counter` of xs: each label of xs once, with its number of
   * occurrences, in the order of first occurrence.
   */
  ghost predicate TallyOf(xs: seq<string>, c: seq<Vote>)
  {
    CountsOf(xs, c) && Covers(xs, c) && InFirstOccurrenceOrder(xs, c)
  }

  /** `Counter(xs)`: count the labels one by one. */
  function Tally(xs: seq<string>): seq<Vote>
  {
    if xs == [] then [] else Bump(Tally(xs[..|xs| - 1]), xs[|xs| - 1])
  }

  /** `Counter(xs)` is exact: each label of xs once, with its count, in order of first occurrence. */
  lemma {:induction false} TallyCounts(xs: seq<string>)
    ensures TallyOf(xs, Tally(xs))
  {
    if xs != [] {
      var init := xs[..|xs| - 1];
      TallyCounts(init);
      TallyStep(init, Tally(init), xs[|xs| - 1]);
      assert init + [xs[|xs| - 1]] == xs;
    }
  }

  lemma {:induction false} CountSnoc(xs: seq<string>, x: string, y: string)
    ensures Count(xs + [x], y) == Count(xs, y) + (if x == y then 1 else 0)
  {
    assert (xs + [x])[..|xs|] == xs;
  }

  lemma {:induction false} FirstIndexSnoc(xs: seq<string>, x: string, y: string)
    requires y in xs
    ensures y in xs + [x] && FirstIndex(xs + [x], y) == FirstIndex(xs, y)
  {
    assert (xs + [x])[..|xs|] == xs;
  }

  /** An exact counter names each label once. */
  lemma {:induction false} TallyOfDistinct(xs: seq<string>, c: seq<Vote>)
    requires TallyOf(xs, c)
    ensures DistinctCategories(c)
  {
    forall p, q | 0 <= p < q < |c|
      ensures c[p].category != c[q].category
    {
      assert FirstIndex(xs, c[p].category) < FirstIndex(xs, c[q].category);
    }
  }

  /** Counting one more label keeps the counter exact. */
  lemma {:induction false} TallyStep(xs: seq<string>, c: seq<Vote>, x: string)
    requires TallyOf(xs, c)
    ensures TallyOf(xs + [x], Bump(c, x))
  {
    TallyOfDistinct(xs, c);
    if x in Categories(c) {
      assert x in xs by {
        var p :| 0 <= p < |c| && Categories(c)[p] == x;
      }
      SeenCounts(xs, c, x);
      SeenCovers(xs, c, x);
      SeenOrder(xs, c, x);
    } else {
      assert x !in xs;
      UnseenCounts(xs, c, x);
      UnseenCovers(xs, c, x);
      UnseenOrder(xs, c, x);
    }
  }

  lemma {:induction false} SeenCounts(xs: seq<string>, c: seq<Vote>, x: string)
    requires CountsOf(xs, c) && DistinctCategories(c) && x in Categories(c)
    ensures CountsOf(xs + [x], Bump(c, x))
  {
    BumpSpec(c, x);
    var r := Bump(c, x);
    forall p | 0 <= p < |r|
      ensures r[p].category in xs + [x] && r[p].count == Count(xs + [x], r[p].category)
    {
      CountSnoc(xs, x, r[p].category);
    }
  }

  lemma {:induction false} SeenCovers(xs: seq<string>, c: seq<Vote>, x: string)
    requires Covers(xs, c) && DistinctCategories(c) && x in Categories(c)
    ensures Covers(xs + [x], Bump(c, x))
  {
    BumpSpec(c, x);
    assert Categories(Bump(c, x)) == Categories(c);
  }

  lemma {:induction false} SeenOrder(xs: seq<string>, c: seq<Vote>, x: string)
    requires InFirstOccurrenceOrder(xs, c) && DistinctCategories(c) && x in Categories(c)
    ensures InFirstOccurrenceOrder(xs + [x], Bump(c, x))
  {
    BumpSpec(c, x);
    var r := Bump(c, x);
    forall p, q | 0 <= p < q < |r|
      ensures r[p].category in xs + [x] && r[q].category in xs + [x]
      ensures FirstIndex(xs + [x], r[p].category) < FirstIndex(xs + [x], r[q].category)
    {
      assert r[p].category == c[p].category && r[q].category == c[q].category;
      FirstIndexSnoc(xs, x, c[p].category);
      FirstIndexSnoc(xs, x, c[q].category);
    }
  }

  lemma {:induction false} UnseenCounts(xs: seq<string>, c: seq<Vote>, x: string)
    requires CountsOf(xs, c) && DistinctCategories(c) && x !in Categories(c) && x !in xs
    ensures CountsOf(xs + [x], Bump(c, x))
  {
    BumpSpec(c, x);
    var r := Bump(c, x);
    forall p | 0 <= p < |r|
      ensures r[p].category in xs + [x] && r[p].count == Count(xs + [x], r[p].category)
    {
      CountSnoc(xs, x, r[p].category);
      if p == |c| {
        CountAbsent(xs, x);
      } else {
        assert r[p] == c[p];
      }
    }
  }

  lemma {:induction false} UnseenCovers(xs: seq<string>, c: seq<Vote>, x: string)
    requires Covers(xs, c) && DistinctCategories(c) && x !in Categories(c)
    ensures Covers(xs + [x], Bump(c, x))
  {
    BumpSpec(c, x);
    var r := Bump(c, x);
    assert Categories(r) == Categories(c) + [x];
  }

  lemma {:induction false} UnseenOrder(xs: seq<string>, c: seq<Vote>, x: string)
    requires CountsOf(xs, c) && InFirstOccurrenceOrder(xs, c)
    requires DistinctCategories(c) && x !in Categories(c) && x !in xs
    ensures InFirstOccurrenceOrder(xs + [x], Bump(c, x))
  {
    BumpSpec(c, x);
    var r := Bump(c, x);
    assert (xs + [x])[..|xs|] == xs;
    assert FirstIndex(xs + [x], x) == |xs|;
    forall p, q | 0 <= p < q < |r|
      ensures r[p].category in xs + [x] && r[q].category in xs + [x]
      ensures FirstIndex(xs + [x], r[p].category) < FirstIndex(xs + [x], r[q].category)
    {
      assert r[p] == c[p];
      FirstIndexSnoc(xs, x, c[p].category);
      if q < |c| {
        assert r[q] == c[q];
        FirstIndexSnoc(xs, x, c[q].category);
      }
    }
  }

  /** The sum of the counts of a list of votes. */
  function Total(c: seq<Vote>): nat
  {
    if c == [] then 0 else c[0].count + Total(c[1..])
  }

  lemma {:induction false} TotalAppend(c: seq<Vote>, v: Vote)
    ensures Total(c + [v]) == Total(c) + v.count
  {
    if c != [] {
      assert (c + [v])[1..] == c[1..] + [v];
      TotalAppend(c[1..], v);
    }
  }

  lemma {:induction false} BumpTotal(c: seq<Vote>, x: string)
    requires DistinctCategories(c)
    ensures Total(Bump(c, x)) == Total(c) + 1
  {
    if c != [] && c[0].category != x {
      BumpTotal(c[1..], x);
    }
  }

  /** Every label counted once: the counts of `Counter(xs)` add up to |xs|. */
  lemma {:induction false} TallyTotal(xs: seq<string>)
    ensures Total(Tally(xs)) == |xs|
  {
    if xs != [] {
      var init := xs[..|xs| - 1];
      TallyTotal(init);
      TallyCounts(init);
      TallyOfDistinct(init, Tally(init));
      BumpTotal(Tally(init), xs[|xs| - 1]);
    }
  }

  /** Place v after every vote whose count is at least v's: one step of a stable sort, largest count first. */
  function InsertByCount(s: seq<Vote>, v: Vote): (r: seq<Vote>)
    ensures |r| == |s| + 1
  {
    if s == [] then [v]
    else if s[0].count >= v.count then [s[0]] + InsertByCount(s[1..], v)
    else [v] + s
  }

  /** Inserting keeps every vote and adds v: the result is a permutation of s with v. */
  lemma {:induction false} InsertByCountPerm(s: seq<Vote>, v: Vote)
    ensures multiset(InsertByCount(s, v)) == multiset(s) + multiset{v}
  {
    if s != [] && s[0].count >= v.count {
      InsertByCountPerm(s[1..], v);
      assert s == [s[0]] + s[1..];
    }
  }

  /** Inserting adds v's count to the total. */
  lemma {:induction false} InsertByCountTotal(s: seq<Vote>, v: Vote)
    ensures Total(InsertByCount(s, v)) == Total(s) + v.count
  {
    var r := InsertByCount(s, v);
    if s == [] {
      assert r[1..] == [];
    } else if s[0].count >= v.count {
      InsertByCountTotal(s[1..], v);
      assert r[1..] == InsertByCount(s[1..], v);
    } else {
      assert r[1..] == s;
    }
  }

  /** `sorted(counter.items(), key=count, reverse=True)`, which keeps equal counts in their order. */
  function SortByCount(c: seq<Vote>): (r: seq<Vote>)
    ensures |r| == |c|
  {
    if c == [] then [] else InsertByCount(SortByCount(c[..|c| - 1]), c[|c| - 1])
  }

  /** Sorting only reorders the votes: same votes, same total. */
  lemma {:induction false} SortByCountPerm(c: seq<Vote>)
    ensures multiset(SortByCount(c)) == multiset(c)
    ensures Total(SortByCount(c)) == Total(c)
  {
    if c != [] {
      var init := c[..|c| - 1];
      SortByCountPerm(init);
      InsertByCountPerm(SortByCount(init), c[|c| - 1]);
      InsertByCountTotal(SortByCount(init), c[|c| - 1]);
      assert c == init + [c[|c| - 1]];
      TotalAppend(init, c[|c| - 1]);
    }
  }

  /** `Counter(xs).most_common()`. */
  function MostCommon(xs: seq<string>): seq<Vote>
  {
    SortByCount(Tally(xs))
  }

  /** Vote a ranks before vote b: a larger count, or an equal count and an earlier first occurrence in xs. */
  ghost predicate RanksBefore(xs: seq<string>, a: Vote, b: Vote)
    requires a.category in xs && b.category in xs
  {
    a.count > b.count || (a.count == b.count && FirstIndex(xs, a.category) < FirstIndex(xs, b.category))
  }

  ghost predicate RankedBy(xs: seq<string>, s: seq<Vote>)
  {
    && (forall p :: 0 <= p < |s| ==> s[p].category in xs)
    && (forall p, q :: 0 <= p < q < |s| ==> s[p].category in xs && s[q].category in xs && RanksBefore(xs, s[p], s[q]))
  }

  lemma {:induction false} InsertByCountRanked(xs: seq<string>, s: seq<Vote>, v: Vote)
    requires RankedBy(xs, s) && v.category in xs
    requires forall p :: 0 <= p < |s| ==> FirstIndex(xs, s[p].category) < FirstIndex(xs, v.category)
    ensures RankedBy(xs, InsertByCount(s, v))
  {
    if s != [] {
      if s[0].count >= v.count {
        InsertByCountRanked(xs, s[1..], v);
        InsertAfterHead(xs, s, v);
      } else {
        InsertAtHead(xs, s, v);
      }
    }
  }

  /** v goes behind the head: the head ranks before v and before every other vote. */
  lemma {:induction false} InsertAfterHead(xs: seq<string>, s: seq<Vote>, v: Vote)
    requires s != [] && s[0].count >= v.count
    requires RankedBy(xs, s) && v.category in xs
    requires forall p :: 0 <= p < |s| ==> FirstIndex(xs, s[p].category) < FirstIndex(xs, v.category)
    requires RankedBy(xs, InsertByCount(s[1..], v))
    ensures RankedBy(xs, InsertByCount(s, v))
  {
    var rest := InsertByCount(s[1..], v);
    var r := InsertByCount(s, v);
    assert r == [s[0]] + rest;
    HeadBeatsRest(xs, s, v);
    forall p, q | 0 <= p < q < |r|
      ensures r[p].category in xs && r[q].category in xs && RanksBefore(xs, r[p], r[q])
    {
      if p > 0 {
        assert r[p] == rest[p - 1] && r[q] == rest[q - 1];
      }
    }
  }

  lemma {:induction false} HeadBeatsRest(xs: seq<string>, s: seq<Vote>, v: Vote)
    requires s != [] && s[0].count >= v.count
    requires RankedBy(xs, s) && v.category in xs
    requires FirstIndex(xs, s[0].category) < FirstIndex(xs, v.category)
    ensures forall q :: 0 <= q < |s| ==> InsertByCount(s[1..], v)[q].category in xs
    ensures forall q :: 0 <= q < |s| ==> RanksBefore(xs, s[0], InsertByCount(s[1..], v)[q])
  {
    var rest := InsertByCount(s[1..], v);
    InsertByCountPerm(s[1..], v);
    forall q | 0 <= q < |rest|
      ensures rest[q].category in xs && RanksBefore(xs, s[0], rest[q])
    {
      assert rest[q] in multiset(s[1..]) + multiset{v};
      if rest[q] != v {
        assert rest[q] in s[1..];
        var i :| 1 <= i < |s| && s[i] == rest[q];
      }
    }
  }

  /** v has a larger count than the head, so larger than every vote. */
  lemma {:induction false} InsertAtHead(xs: seq<string>, s: seq<Vote>, v: Vote)
    requires s != [] && s[0].count < v.count
    requires RankedBy(xs, s) && v.category in xs
    ensures RankedBy(xs, InsertByCount(s, v))
  {
    var r := InsertByCount(s, v);
    assert r == [v] + s;
    forall p, q | 0 <= p < q < |r|
      ensures r[p].category in xs && r[q].category in xs && RanksBefore(xs, r[p], r[q])
    {
      if p == 0 && q > 1 {
        assert RanksBefore(xs, s[0], s[q - 1]);
      } else if p > 0 {
        assert r[p] == s[p - 1] && r[q] == s[q - 1];
      }
    }
  }

  lemma {:induction false} SortByCountRanked(xs: seq<string>, c: seq<Vote>)
    requires forall p :: 0 <= p < |c| ==> c[p].category in xs
    requires forall p, q :: 0 <= p < q < |c| ==> FirstIndex(xs, c[p].category) < FirstIndex(xs, c[q].category)
    ensures RankedBy(xs, SortByCount(c))
  {
    if c != [] {
      var init := c[..|c| - 1];
      var last := c[|c| - 1];
      SortByCountRanked(xs, init);
      SortByCountPerm(init);
      var s := SortByCount(init);
      forall p | 0 <= p < |s|
        ensures FirstIndex(xs, s[p].category) < FirstIndex(xs, last.category)
      {
        assert s[p] in multiset(init);
        var q :| 0 <= q < |init| && init[q] == s[p];
      }
      InsertByCountRanked(xs, s, last);
    }
  }

  /**
   * What `most_common` returns: each label of xs once with its number of
   * occurrences, largest count first and equal counts in order of first
   * occurrence; the counts add up to |xs|, and the list is empty iff xs is.
   */
  lemma {:induction false} MostCommonSpec(xs: seq<string>)
    ensures var r := MostCommon(xs);
      && RankedBy(xs, r)
      && (forall p :: 0 <= p < |r| ==> r[p].count == Count(xs, r[p].category))
      && (forall x :: x in xs ==> x in Categories(r))
      && Total(r) == |xs|
      && (r == [] <==> xs == [])
  {
    var r := MostCommon(xs);
    TallyCounts(xs);
    SortByCountRanked(xs, Tally(xs));
    SortByCountPerm(Tally(xs));
    TallyTotal(xs);
    MostCommonCounts(xs);
    if xs != [] {
      assert xs[0] in Categories(r);
    }
  }

  /** The ranked votes carry the exact counts and cover every label. */
  lemma {:induction false} MostCommonCounts(xs: seq<string>)
    ensures var r := MostCommon(xs);
      && (forall p :: 0 <= p < |r| ==> r[p].count == Count(xs, r[p].category))
      && (forall x :: x in xs ==> x in Categories(r))
  {
    var c := Tally(xs);
    var r := MostCommon(xs);
    TallyCounts(xs);
    SortByCountPerm(c);
    forall p | 0 <= p < |r|
      ensures r[p].count == Count(xs, r[p].category)
    {
      assert r[p] in multiset(c);
      var q :| 0 <= q < |c| && c[q] == r[p];
    }
    forall x | x in xs
      ensures x in Categories(r)
    {
      var q :| 0 <= q < |c| && Categories(c)[q] == x;
      assert c[q] in multiset(r);
      var p :| 0 <= p < |r| && r[p] == c[q];
      assert Categories(r)[p] == x;
    }
  }

  /** The first vote of a ranked, complete count beats or ties every label, and wins ties by first occurrence. */
  lemma {:induction false} TopVoteBeats(xs: seq<string>, r: seq<Vote>)
    requires r != [] && RankedBy(xs, r)
    requires forall p :: 0 <= p < |r| ==> r[p].count == Count(xs, r[p].category)
    requires forall x :: x in xs ==> x in Categories(r)
    ensures forall x :: x in xs ==> Count(xs, x) <= r[0].count
    ensures forall x :: x in xs && Count(xs, x) == r[0].count ==> FirstIndex(xs, r[0].category) <= FirstIndex(xs, x)
  {
    forall x | x in xs
      ensures Count(xs, x) <= r[0].count
      ensures Count(xs, x) == r[0].count ==> FirstIndex(xs, r[0].category) <= FirstIndex(xs, x)
    {
      var p :| 0 <= p < |r| && Categories(r)[p] == x;
      if p > 0 {
        assert RanksBefore(xs, r[0], r[p]);
      }
    }
  }

  /** The ranking is empty exactly when there are no votes. */
  lemma {:induction false} MostCommonEmpty(xs: seq<string>)
    ensures MostCommon(xs) == [] <==> xs == []
  {
    MostCommonSpec(xs);
  }

  /** `ord_p[0][0]`: the predicted label. */
  function Predict(xs: seq<string>): string
    requires xs != []
  {
    MostCommonEmpty(xs);
    MostCommon(xs)[0].category
  }

  /**
   * The predicted label wins the vote: it is one of the votes, no label
   * occurs more often, and among the labels that occur as often it occurs first.
   */
  lemma {:induction false} PredictWins(xs: seq<string>)
    requires xs != []
    ensures Predict(xs) in xs
    ensures forall x :: x in xs ==> Count(xs, x) <= Count(xs, Predict(xs))
    ensures forall x :: x in xs && Count(xs, x) == Count(xs, Predict(xs)) ==> FirstIndex(xs, Predict(xs)) <= FirstIndex(xs, x)
  {
    MostCommonSpec(xs);
    TopVoteBeats(xs, MostCommon(xs));
  }
}
