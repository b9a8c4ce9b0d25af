/**
 * One input line, already split into its label and its `name:count` pairs,
 * and `make_vec`, which turns it into a count vector in vocabulary order.
 */
module Documents {

  /** One `name:count` pair of a line; the count is a run of digits, so never negative. */
  datatype Feat = Feat(name: string, count: nat)

  /** A line `label name:count name:count ...`; `label` is a reserved word here, hence `category`. */
  datatype Line = Line(category: string, feats: seq<Feat>)

  /** Pair j is the last one on its line that carries its name. */
  predicate LastOf(fs: seq<Feat>, j: int)
    requires 0 <= j < |fs|
  {
    forall j' :: j < j' < |fs| ==> fs[j'].name != fs[j].name
  }

  /** The names of a line's pairs, in order. */
  function Names(fs: seq<Feat>): (ns: seq<string>)
    ensures |ns| == |fs| && forall j :: 0 <= j < |fs| ==> ns[j] == fs[j].name
  {
    seq(|fs|, j requires 0 <= j < |fs| => fs[j].name)
  }

  /**
   * The dict comprehension `{name: count for name, count in pairs}`:
   * a name is a key iff some pair carries it, and a repeated name keeps its last count.
   */
  function FeatureMap(fs: seq<Feat>): (m: map<string, nat>)
    ensures m.Keys == set x | x in Names(fs)
  {
    if fs == [] then map[]
    else
      var init := fs[..|fs| - 1];
      var last := fs[|fs| - 1];
      assert Names(fs) == Names(init) + [last.name];
      FeatureMap(init)[last.name := last.count]
  }

  /** A name maps to the count of its last pair on the line. */
  lemma {:induction false} FeatureMapLast(fs: seq<Feat>, j: int)
    requires 0 <= j < |fs| && LastOf(fs, j)
    ensures fs[j].name in FeatureMap(fs) && FeatureMap(fs)[fs[j].name] == fs[j].count
  {
    var init := fs[..|fs| - 1];
    if j < |fs| - 1 {
      assert LastOf(init, j);
      FeatureMapLast(init, j);
    }
  }

  /** The vector of a line: entry i is the line's count for vocab[i], or 0. */
  function Vector(fs: seq<Feat>, vocab: seq<string>): (v: seq<nat>)
    ensures |v| == |vocab|
  {
    var m := FeatureMap(fs);
    seq(|vocab|, i requires 0 <= i < |vocab| => if vocab[i] in m then m[vocab[i]] else 0)
  }

  /** `make_vec`: fill a zero array of length |vocab| entry by entry. */
  method MakeVec(line: Line, vocab: seq<string>) returns (vec: seq<nat>)
    ensures |vec| == |vocab|
    ensures forall i :: 0 <= i < |vocab| && vocab[i] !in Names(line.feats) ==> vec[i] == 0
    ensures forall i, j :: 0 <= i < |vocab| && 0 <= j < |line.feats| && line.feats[j].name == vocab[i] && LastOf(line.feats, j)
              ==> vec[i] == line.feats[j].count
    ensures vec == Vector(line.feats, vocab)
  {
    var feats := FeatureMap(line.feats);
    var a := new nat[|vocab|](_ => 0);
    for i := 0 to |vocab|
      invariant forall p :: 0 <= p < i ==> a[p] == (if vocab[p] in feats then feats[vocab[p]] else 0)
      invariant forall p :: i <= p < |vocab| ==> a[p] == 0
    {
      if vocab[i] in feats {
        a[i] := feats[vocab[i]];
      }
    }
    vec := a[..];
    forall i, j | 0 <= i < |vocab| && 0 <= j < |line.feats| && line.feats[j].name == vocab[i] && LastOf(line.feats, j)
      ensures vec[i] == line.feats[j].count
    {
      FeatureMapLast(line.feats, j);
    }
  }

  /** A name outside the vocabulary does not change the vector, wherever it stands on the line. */
  lemma {:induction false} VectorIgnoresUnknown(before: seq<Feat>, f: Feat, after: seq<Feat>, vocab: seq<string>)
    requires f.name !in vocab
    ensures Vector(before + [f] + after, vocab) == Vector(before + after, vocab)
  {
    var v1 := Vector(before + [f] + after, vocab);
    var v2 := Vector(before + after, vocab);
    forall i | 0 <= i < |vocab|
      ensures v1[i] == v2[i]
    {
      SameCountWithout(before, f, after, vocab[i]);
    }
  }

  /** Dropping a pair named other than x leaves x's entry of the feature map alone. */
  lemma {:induction false} SameCountWithout(before: seq<Feat>, f: Feat, after: seq<Feat>, x: string)
    requires x != f.name
    ensures var m1, m2 := FeatureMap(before + [f] + after), FeatureMap(before + after);
      (x in m1 <==> x in m2) && (x in m1 ==> m1[x] == m2[x])
  {
    if x in FeatureMap(before + [f] + after) {
      KeptCount(before, f, after, x);
    }
    if x in FeatureMap(before + after) {
      KeptName(before, f, after, x);
    }
  }

  /** The pairs of the shorter line sit, in order, in the longer one around f. */
  lemma {:induction false} Positions(before: seq<Feat>, f: Feat, after: seq<Feat>)
    ensures forall j :: 0 <= j < |before + after| ==>
      (before + after)[j] == (before + [f] + after)[if j < |before| then j else j + 1]
  {
  }

  /** x's last pair on the longer line is also its last pair on the shorter one. */
  lemma {:induction false} KeptCount(before: seq<Feat>, f: Feat, after: seq<Feat>, x: string)
    requires x != f.name && x in FeatureMap(before + [f] + after)
    ensures x in FeatureMap(before + after) && FeatureMap(before + after)[x] == FeatureMap(before + [f] + after)[x]
  {
    var fs1 := before + [f] + after;
    var fs2 := before + after;
    var n := |before|;
    Positions(before, f, after);
    var j :| 0 <= j < |fs1| && Names(fs1)[j] == x;
    var last := LastWithName(fs1, j);
    var last2 := if last < n then last else last - 1;
    assert fs2[last2] == fs1[last];
    assert LastOf(fs2, last2);
    FeatureMapLast(fs1, last);
    FeatureMapLast(fs2, last2);
  }

  /** Every name on the shorter line is on the longer one. */
  lemma {:induction false} KeptName(before: seq<Feat>, f: Feat, after: seq<Feat>, x: string)
    requires x in FeatureMap(before + after)
    ensures x in FeatureMap(before + [f] + after)
  {
    var fs1 := before + [f] + after;
    var fs2 := before + after;
    var n := |before|;
    var j :| 0 <= j < |fs2| && Names(fs2)[j] == x;
    var j1 := if j < n then j else j + 1;
    assert fs2[j] == fs1[j1];
    assert Names(fs1)[j1] == x;
  }

  /** Some pair with the name of pair j is the last one with that name. */
  lemma {:induction false} LastWithName(fs: seq<Feat>, j: int) returns (last: int)
    requires 0 <= j < |fs|
    ensures j <= last < |fs| && fs[last].name == fs[j].name && LastOf(fs, last)
    decreases |fs| - j
  {
    if LastOf(fs, j) {
      last := j;
    } else {
      var j' :| j < j' < |fs| && fs[j'].name == fs[j].name;
      last := LastWithName(fs, j');
    }
  }
}
