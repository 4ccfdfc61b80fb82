/** `calculateScore` and the per-parent averages of the assessment view
    (routes/reviewer.js): a two-level mean. Within each parent, the numeric
    values submitted for its children are averaged; parents without any
    numeric value are left out; the result is the mean of the parent means,
    or 0 when no parent has one. */
module Scoring {
  import opened Wrappers
  import opened ObjectIds
  import opened MatrixTemplate
  import opened AssessmentSchema

  function Sum(s: seq<real>): real {
    if s == [] then 0.0 else Sum(s[..|s| - 1]) + s[|s| - 1]
  }

  lemma {:induction false} SumAppend(u: seq<real>, v: seq<real>)
    ensures Sum(u + v) == Sum(u) + Sum(v)
  {
    if v == [] {
      assert u + v == u;
    } else {
      var n := |v| - 1;
      assert (u + v)[..|u + v| - 1] == u + v[..n];
      SumAppend(u, v[..n]);
    }
  }

  /** `scores.find(s => s.componentId === id)`: the first entry for `id`. */
  function FindScore(scores: seq<Score>, id: ObjectId): (r: Option<Score>)
    ensures r.None? <==> forall i :: 0 <= i < |scores| ==> scores[i].componentId != id
    ensures r.Some? ==> exists i :: 0 <= i < |scores| && scores[i] == r.value && r.value.componentId == id && NoEntryBelow(scores, i, id)
  {
    if scores == [] then None
    else if scores[0].componentId == id then Some(scores[0])
    else
      var r := FindScore(scores[1..], id);
      assert r.Some? ==> exists i :: 0 <= i < |scores| - 1 && scores[1..][i] == r.value && NoEntryBelow(scores[1..], i, id);
      r
  }

  /** No entry before position `n` is for `id`. */
  ghost predicate NoEntryBelow(scores: seq<Score>, n: nat, id: ObjectId) {
    forall j :: 0 <= j < n && j < |scores| ==> scores[j].componentId != id
  }

  /** The value that counts for a child: that of its first entry, when the
      entry holds a number. */
  function NumericValue(scores: seq<Score>, id: ObjectId): Option<real> {
    var entry := FindScore(scores, id);
    if entry.Some? && entry.value.value.Num? then Some(entry.value.value.n) else None
  }

  /** The numeric values of `children`, in order; children without one are
      skipped. */
  function ChildValues(scores: seq<Score>, children: seq<ChildComponent>): seq<real> {
    if children == [] then []
    else
      var n := |children| - 1;
      var v := NumericValue(scores, children[n].id);
      ChildValues(scores, children[..n]) + (if v.Some? then [v.value] else [])
  }

  /** A parent's average, absent when none of its children has a number. */
  function ParentMean(scores: seq<Score>, parent: ParentComponent): Option<real> {
    var vs := ChildValues(scores, parent.children);
    if |vs| > 0 then Some(Sum(vs) / (|vs| as real)) else None
  }

  /** The means of the parents that have one, in template order. */
  function ParentMeans(scores: seq<Score>, parents: seq<ParentComponent>): seq<real> {
    if parents == [] then []
    else
      var n := |parents| - 1;
      var m := ParentMean(scores, parents[n]);
      ParentMeans(scores, parents[..n]) + (if m.Some? then [m.value] else [])
  }

  /** The score of a score set against a template. */
  function Aggregate(scores: seq<Score>, template: Template): real {
    var means := ParentMeans(scores, template.components);
    if |means| > 0 then Sum(means) / (|means| as real) else 0.0
  }

  /** The figure displayed for one parent: its average, or 0 ('0.00'). */
  function ParentAverage(scores: seq<Score>, parent: ParentComponent): real {
    var m := ParentMean(scores, parent);
    if m.Some? then m.value else 0.0
  }

  /** The inner `forEach` over a parent's children, accumulating `parentSum`
      and `childCount`. */
  method ChildTotals(scores: seq<Score>, children: seq<ChildComponent>) returns (parentSum: real, childCount: nat)
    ensures parentSum == Sum(ChildValues(scores, children))
    ensures childCount == |ChildValues(scores, children)|
  {
    parentSum, childCount := 0.0, 0;
    var j := 0;
    while j < |children|
      invariant 0 <= j <= |children|
      invariant parentSum == Sum(ChildValues(scores, children[..j]))
      invariant childCount == |ChildValues(scores, children[..j])|
    {
      var entry := FindScore(scores, children[j].id);
      if entry.Some? && entry.value.value.Num? {
        parentSum := parentSum + entry.value.value.n;
        childCount := childCount + 1;
      }
      assert children[..j + 1][..j] == children[..j];
      ghost var v := NumericValue(scores, children[j].id);
      SumAppend(ChildValues(scores, children[..j]), if v.Some? then [v.value] else []);
      j := j + 1;
    }
    assert children[..j] == children;
  }

  /** `calculateScore(scores, template)`: the outer `forEach`, accumulating
      `totalParentScore` and `parentCount`. */
  method CalculateScore(scores: seq<Score>, template: Template) returns (r: real)
    ensures r == Aggregate(scores, template)
  {
    var parents := template.components;
    var totalParentScore, parentCount := 0.0, 0;
    var i := 0;
    while i < |parents|
      invariant 0 <= i <= |parents|
      invariant totalParentScore == Sum(ParentMeans(scores, parents[..i]))
      invariant parentCount == |ParentMeans(scores, parents[..i])|
    {
      var parentSum, childCount := ChildTotals(scores, parents[i].children);
      if childCount > 0 {
        totalParentScore := totalParentScore + parentSum / (childCount as real);
        parentCount := parentCount + 1;
      }
      assert parents[..i + 1][..i] == parents[..i];
      ghost var m := ParentMean(scores, parents[i]);
      SumAppend(ParentMeans(scores, parents[..i]), if m.Some? then [m.value] else []);
      i := i + 1;
    }
    assert parents[..i] == parents;
    r := if parentCount > 0 then totalParentScore / (parentCount as real) else 0.0;
  }

  /** The `parentAverages` block of the assessment view: the same inner loop,
      reported per parent (in template order, rather than keyed by parent
      id) instead of being averaged further. */
  method ParentAverages(scores: seq<Score>, template: Template) returns (averages: seq<real>)
    ensures |averages| == |template.components|
    ensures forall i :: 0 <= i < |averages| ==> averages[i] == ParentAverage(scores, template.components[i])
  {
    var parents := template.components;
    averages := [];
    var i := 0;
    while i < |parents|
      invariant 0 <= i <= |parents|
      invariant |averages| == i
      invariant forall k :: 0 <= k < i ==> averages[k] == ParentAverage(scores, parents[k])
    {
      var parentSum, childCount := ChildTotals(scores, parents[i].children);
      averages := averages + [if childCount > 0 then parentSum / (childCount as real) else 0.0];
      i := i + 1;
    }
  }

  // Laws of the aggregate

  lemma {:induction false} SumWithin(s: seq<real>, lo: real, hi: real)
    requires forall x :: x in s ==> lo <= x <= hi
    ensures lo * (|s| as real) <= Sum(s) <= hi * (|s| as real)
  {
    if s != [] {
      var n := |s| - 1;
      assert forall x :: x in s[..n] ==> x in s;
      SumWithin(s[..n], lo, hi);
      assert s[n] in s;
    }
  }

  /** A mean lies between any bounds of the values averaged. */
  lemma MeanWithin(s: seq<real>, lo: real, hi: real)
    requires |s| > 0
    requires forall x :: x in s ==> lo <= x <= hi
    ensures lo <= Sum(s) / (|s| as real) <= hi
  {
    SumWithin(s, lo, hi);
    var n := |s| as real;
    var q := Sum(s) / n;
    assert q * n == Sum(s);
  }

  /** Every parent mean lies within bounds that hold of all the values. */
  lemma {:induction false} ParentMeansWithin(scores: seq<Score>, parents: seq<ParentComponent>, lo: real, hi: real)
    requires forall p, v :: p in parents && v in ChildValues(scores, p.children) ==> lo <= v <= hi
    ensures forall m :: m in ParentMeans(scores, parents) ==> lo <= m <= hi
  {
    if parents != [] {
      var n := |parents| - 1;
      assert forall p :: p in parents[..n] ==> p in parents;
      ParentMeansWithin(scores, parents[..n], lo, hi);
      assert parents[n] in parents;
      var vs := ChildValues(scores, parents[n].children);
      if |vs| > 0 {
        MeanWithin(vs, lo, hi);
      }
    }
  }

  /** The score lies between the least and the greatest numeric value that
      counts, and is 0 when no value counts. */
  lemma AggregateWithin(scores: seq<Score>, template: Template, lo: real, hi: real)
    requires forall p, v :: p in template.components && v in ChildValues(scores, p.children) ==> lo <= v <= hi
    ensures ParentMeans(scores, template.components) == [] ==> Aggregate(scores, template) == 0.0
    ensures ParentMeans(scores, template.components) != [] ==> lo <= Aggregate(scores, template) <= hi
  {
    var means := ParentMeans(scores, template.components);
    ParentMeansWithin(scores, template.components, lo, hi);
    if means != [] {
      MeanWithin(means, lo, hi);
    }
  }

  lemma {:induction false} NoNumbersNoValues(scores: seq<Score>, children: seq<ChildComponent>)
    requires forall c :: c in children ==> NumericValue(scores, c.id).None?
    ensures ChildValues(scores, children) == []
  {
    if children != [] {
      var n := |children| - 1;
      assert children[n] in children;
      assert forall c :: c in children[..n] ==> c in children;
      NoNumbersNoValues(scores, children[..n]);
    }
  }

  lemma {:induction false} NoNumbersNoMeans(scores: seq<Score>, parents: seq<ParentComponent>)
    requires forall p, c :: p in parents && c in p.children ==> NumericValue(scores, c.id).None?
    ensures ParentMeans(scores, parents) == []
  {
    if parents != [] {
      var n := |parents| - 1;
      assert parents[n] in parents;
      assert forall p :: p in parents[..n] ==> p in parents;
      NoNumbersNoMeans(scores, parents[..n]);
      NoNumbersNoValues(scores, parents[n].children);
    }
  }

  /** When no child of the template has a numeric value (no scores at all,
      only text, or only ids the template does not have) the score is 0. */
  lemma AggregateWithoutNumbers(scores: seq<Score>, template: Template)
    requires forall p, c :: p in template.components && c in p.children ==> NumericValue(scores, c.id).None?
    ensures Aggregate(scores, template) == 0.0
  {
    NoNumbersNoMeans(scores, template.components);
  }

  /** An empty score set scores 0. */
  lemma AggregateOfNoScores(template: Template)
    ensures Aggregate([], template) == 0.0
  {
    AggregateWithoutNumbers([], template);
  }

  lemma {:induction false} SameNumbersSameValues(s1: seq<Score>, s2: seq<Score>, children: seq<ChildComponent>)
    requires forall id :: NumericValue(s1, id) == NumericValue(s2, id)
    ensures ChildValues(s1, children) == ChildValues(s2, children)
  {
    if children != [] {
      SameNumbersSameValues(s1, s2, children[..|children| - 1]);
    }
  }

  lemma {:induction false} SameNumbersSameMeans(s1: seq<Score>, s2: seq<Score>, parents: seq<ParentComponent>)
    requires forall id :: NumericValue(s1, id) == NumericValue(s2, id)
    ensures ParentMeans(s1, parents) == ParentMeans(s2, parents)
  {
    if parents != [] {
      var n := |parents| - 1;
      SameNumbersSameMeans(s1, s2, parents[..n]);
      SameNumbersSameValues(s1, s2, parents[n].children);
    }
  }

  /** The score depends on a score set only through the numeric value each
      component id receives. */
  lemma AggregateByNumbers(s1: seq<Score>, s2: seq<Score>, template: Template)
    requires forall id :: NumericValue(s1, id) == NumericValue(s2, id)
    ensures Aggregate(s1, template) == Aggregate(s2, template)
  {
    SameNumbersSameMeans(s1, s2, template.components);
  }

  lemma {:induction false} FindScoreAppend(scores: seq<Score>, x: Score, id: ObjectId)
    ensures FindScore(scores + [x], id) ==
      if FindScore(scores, id).Some? then FindScore(scores, id)
      else if x.componentId == id then Some(x) else None
  {
    if scores != [] {
      assert (scores + [x])[1..] == scores[1..] + [x];
      FindScoreAppend(scores[1..], x, id);
    } else {
      assert [] + [x] == [x];
    }
  }

  /** A text value never counts: adding one changes no score, whether its
      child already had a value or not (it is left out, not read as 0). */
  lemma TextIsIgnored(scores: seq<Score>, template: Template, id: ObjectId, text: string)
    ensures Aggregate(scores + [Score(id, Text(text))], template) == Aggregate(scores, template)
  {
    var x := Score(id, Text(text));
    forall cid ensures NumericValue(scores + [x], cid) == NumericValue(scores, cid) {
      FindScoreAppend(scores, x, cid);
    }
    AggregateByNumbers(scores + [x], scores, template);
  }

  /** No two entries of a score set are for the same component (the scores
      are submitted as an object keyed by component id). */
  ghost predicate UniqueComponentIds(scores: seq<Score>) {
    forall i, j :: 0 <= i < j < |scores| ==> scores[i].componentId != scores[j].componentId
  }

  /** With one entry per component, an entry is the one found for its id. */
  lemma FindScoreUnique(scores: seq<Score>, x: Score)
    requires UniqueComponentIds(scores) && x in scores
    ensures FindScore(scores, x.componentId) == Some(x)
  {
    var k :| 0 <= k < |scores| && scores[k] == x;
    var f := FindScore(scores, x.componentId);
    var i :| 0 <= i < |scores| && scores[i] == f.value && f.value.componentId == x.componentId && NoEntryBelow(scores, i, x.componentId);
    assert i == k;
  }

  /** With one entry per component, the order of the entries does not
      matter. */
  lemma ScoreOrderIrrelevant(s1: seq<Score>, s2: seq<Score>, template: Template)
    requires multiset(s1) == multiset(s2)
    requires UniqueComponentIds(s1) && UniqueComponentIds(s2)
    ensures Aggregate(s1, template) == Aggregate(s2, template)
  {
    forall id ensures FindScore(s1, id) == FindScore(s2, id) {
      if x :| x in s1 && x.componentId == id {
        assert x in multiset(s2);
        FindScoreUnique(s1, x);
        FindScoreUnique(s2, x);
      } else {
        forall i | 0 <= i < |s2| ensures s2[i].componentId != id {
          assert s2[i] in multiset(s1);
        }
      }
    }
    AggregateByNumbers(s1, s2, template);
  }

  lemma {:induction false} ParentMeansAppend(scores: seq<Score>, u: seq<ParentComponent>, v: seq<ParentComponent>)
    ensures ParentMeans(scores, u + v) == ParentMeans(scores, u) + ParentMeans(scores, v)
  {
    if v == [] {
      assert u + v == u;
    } else {
      var n := |v| - 1;
      assert (u + v)[..|u + v| - 1] == u + v[..n];
      ParentMeansAppend(scores, u, v[..n]);
    }
  }

  /** Taking the last element off `a` and the same element off `b` keeps
      two permutations permutations of each other. */
  lemma RemoveMatched<T>(a: seq<T>, b: seq<T>, k: nat)
    requires |a| > 0 && k < |b| && b[k] == a[|a| - 1]
    requires multiset(a) == multiset(b)
    ensures multiset(a[..|a| - 1]) == multiset(b[..k] + b[k + 1..])
  {
    var n, x := |a| - 1, a[|a| - 1];
    assert a == a[..n] + [x];
    assert b == b[..k] + [x] + b[k + 1..];
    calc {
      multiset(a[..n]);
      multiset(a[..n]) + multiset{x} - multiset{x};
      multiset(a) - multiset{x};
      multiset(b) - multiset{x};
      multiset(b[..k]) + multiset{x} + multiset(b[k + 1..]) - multiset{x};
      multiset(b[..k]) + multiset(b[k + 1..]);
      multiset(b[..k] + b[k + 1..]);
    }
  }

  lemma {:induction false} SumPermutation(a: seq<real>, b: seq<real>)
    requires multiset(a) == multiset(b)
    ensures Sum(a) == Sum(b)
    decreases |a|
  {
    if a != [] {
      var n := |a| - 1;
      var x := a[n];
      assert x in multiset(b);
      var k :| 0 <= k < |b| && b[k] == x;
      var rest := b[..k] + b[k + 1..];
      assert b == b[..k] + [x] + b[k + 1..];
      assert a == a[..n] + [x];
      RemoveMatched(a, b, k);
      SumPermutation(a[..n], rest);
      SumAppend(b[..k] + [x], b[k + 1..]);
      SumAppend(b[..k], [x]);
      SumAppend(b[..k], b[k + 1..]);
      assert Sum([x]) == x by { assert [x][..0] == []; }
    }
  }

  lemma {:induction false} ParentMeansPermutation(scores: seq<Score>, a: seq<ParentComponent>, b: seq<ParentComponent>)
    requires multiset(a) == multiset(b)
    ensures multiset(ParentMeans(scores, a)) == multiset(ParentMeans(scores, b))
    decreases |a|
  {
    if a != [] {
      var n := |a| - 1;
      var x := a[n];
      assert x in multiset(b);
      var k :| 0 <= k < |b| && b[k] == x;
      var rest := b[..k] + b[k + 1..];
      assert b == b[..k] + [x] + b[k + 1..];
      assert a == a[..n] + [x];
      RemoveMatched(a, b, k);
      ParentMeansPermutation(scores, a[..n], rest);
      ParentMeansAppend(scores, b[..k] + [x], b[k + 1..]);
      ParentMeansAppend(scores, b[..k], [x]);
      ParentMeansAppend(scores, b[..k], b[k + 1..]);
      ParentMeansAppend(scores, a[..n], [x]);
    }
  }

  /** The order of the parents in the template does not matter. */
  lemma ParentOrderIrrelevant(scores: seq<Score>, t1: Template, t2: Template)
    requires multiset(t1.components) == multiset(t2.components)
    ensures Aggregate(scores, t1) == Aggregate(scores, t2)
  {
    var m1, m2 := ParentMeans(scores, t1.components), ParentMeans(scores, t2.components);
    ParentMeansPermutation(scores, t1.components, t2.components);
    assert |m1| == |multiset(m1)| == |multiset(m2)| == |m2|;
    SumPermutation(m1, m2);
  }

  /** Two parents, A with children c1 and c2, B with child c3: scores 80, 90
      and 70 give (85 + 70) / 2 = 77.5; without c2 they give (80 + 70) / 2 = 75. */
  lemma TwoParentExample()
    ensures Aggregate([Score(1, Num(80.0)), Score(2, Num(90.0)), Score(3, Num(70.0))], ExampleTemplate()) == 77.5
    ensures Aggregate([Score(1, Num(80.0)), Score(3, Num(70.0))], ExampleTemplate()) == 75.0
  {
    var full := [Score(1, Num(80.0)), Score(2, Num(90.0)), Score(3, Num(70.0))];
    assert NumericValue(full, 1) == Some(80.0);
    assert NumericValue(full, 2) == Some(90.0) by { assert full[1..][0] == Score(2, Num(90.0)); }
    assert NumericValue(full, 3) == Some(70.0) by { assert full[1..][1..][0] == Score(3, Num(70.0)); }
    ExampleAllScored(full, 80.0, 90.0, 70.0);
    var partial := [Score(1, Num(80.0)), Score(3, Num(70.0))];
    assert NumericValue(partial, 1) == Some(80.0);
    assert NumericValue(partial, 2) == None by { assert partial[1..][1..] == []; }
    assert NumericValue(partial, 3) == Some(70.0) by { assert partial[1..][0] == Score(3, Num(70.0)); }
    ExampleWithoutSecond(partial, 80.0, 70.0);
  }

  /** The example template with all three children scored. */
  lemma ExampleAllScored(scores: seq<Score>, x1: real, x2: real, x3: real)
    requires NumericValue(scores, 1) == Some(x1)
    requires NumericValue(scores, 2) == Some(x2)
    requires NumericValue(scores, 3) == Some(x3)
    ensures Aggregate(scores, ExampleTemplate()) == ((x1 + x2) / 2.0 + x3) / 2.0
  {
    ExampleMeans(scores, [x1, x2], [x3]);
    Mean2(x1, x2);
    Mean1(x3);
    var means := ParentMeans(scores, ExampleTemplate().components);
    assert Sum([x1, x2]) / (|[x1, x2]| as real) == (x1 + x2) / 2.0;
    assert Sum([x3]) / (|[x3]| as real) == x3;
    assert means == [(x1 + x2) / 2.0, x3];
    Mean2((x1 + x2) / 2.0, x3);
    assert Aggregate(scores, ExampleTemplate()) == Sum(means) / 2.0;
  }

  /** The example template with its second child unscored. */
  lemma ExampleWithoutSecond(scores: seq<Score>, x1: real, x3: real)
    requires NumericValue(scores, 1) == Some(x1)
    requires NumericValue(scores, 2) == None
    requires NumericValue(scores, 3) == Some(x3)
    ensures Aggregate(scores, ExampleTemplate()) == (x1 + x3) / 2.0
  {
    ExampleMeans(scores, [x1], [x3]);
    Mean1(x1);
    Mean1(x3);
    var means := ParentMeans(scores, ExampleTemplate().components);
    assert Sum([x1]) / (|[x1]| as real) == x1;
    assert Sum([x3]) / (|[x3]| as real) == x3;
    assert means == [x1, x3];
    Mean2(x1, x3);
    assert Aggregate(scores, ExampleTemplate()) == Sum(means) / 2.0;
  }

  function ExampleTemplate(): Template {
    var c1 := ChildComponent(1, "c1", Rating, Constraints(None, None, []));
    var c2 := ChildComponent(2, "c2", Rating, Constraints(None, None, []));
    var c3 := ChildComponent(3, "c3", Rating, Constraints(None, None, []));
    Template("t", [ParentComponent(10, "A", [c1, c2]), ParentComponent(11, "B", [c3])], true)
  }

  lemma Mean1(x: real)
    ensures Sum([x]) / 1.0 == x
  {
    assert [x][..0] == [];
    assert Sum([x]) == x;
  }

  lemma Mean2(x: real, y: real)
    ensures Sum([x, y]) / 2.0 == (x + y) / 2.0
  {
    assert [x, y][..1] == [x];
    Mean1(x);
    assert Sum([x, y]) == x + y;
  }

  /** The optional value as a sequence of zero or one element. */
  function AsSeq(v: Option<real>): seq<real> {
    if v.Some? then [v.value] else []
  }

  lemma ChildValuesOfTwo(scores: seq<Score>, c1: ChildComponent, c2: ChildComponent)
    ensures ChildValues(scores, [c1, c2]) == AsSeq(NumericValue(scores, c1.id)) + AsSeq(NumericValue(scores, c2.id))
  {
    assert [c1, c2][..1] == [c1];
    ChildValuesOfOne(scores, c1);
  }

  lemma ChildValuesOfOne(scores: seq<Score>, c: ChildComponent)
    ensures ChildValues(scores, [c]) == AsSeq(NumericValue(scores, c.id))
  {
    assert [c][..0] == [];
  }

  lemma ParentMeansOfTwo(scores: seq<Score>, a: ParentComponent, b: ParentComponent)
    ensures ParentMeans(scores, [a, b]) == AsSeq(ParentMean(scores, a)) + AsSeq(ParentMean(scores, b))
  {
    assert [a, b][..1] == [a];
    assert [a][..0] == [];
    assert ParentMeans(scores, [a]) == AsSeq(ParentMean(scores, a));
  }

  /** The example template's parent means, given the values of its three
      children. */
  lemma ExampleMeans(scores: seq<Score>, va: seq<real>, vb: seq<real>)
    requires va == AsSeq(NumericValue(scores, 1)) + AsSeq(NumericValue(scores, 2))
    requires vb == AsSeq(NumericValue(scores, 3))
    requires |va| > 0 && |vb| > 0
    ensures ParentMeans(scores, ExampleTemplate().components) == [Sum(va) / (|va| as real), Sum(vb) / (|vb| as real)]
  {
    var t := ExampleTemplate();
    var a, b := t.components[0], t.components[1];
    ChildValuesOfTwo(scores, a.children[0], a.children[1]);
    ChildValuesOfOne(scores, b.children[0]);
    assert a.children == [a.children[0], a.children[1]];
    assert b.children == [b.children[0]];
    assert ParentMean(scores, a) == Some(Sum(va) / (|va| as real));
    assert ParentMean(scores, b) == Some(Sum(vb) / (|vb| as real));
    ParentMeansOfTwo(scores, a, b);
    assert t.components == [a, b];
  }
}
