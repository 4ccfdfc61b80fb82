/** The grade lookup inlined in the assessment view (routes/reviewer.js):
    the bands are sorted descending by `min` and the first band whose
    operators admit the final score is the grade, or there is none. */
module GradeLookup {
  import opened Wrappers
  import opened WeightMatrix
  import opened StableSort
  import opened GradeValidation

  function NegMinKey(b: GradeBand): real { -b.min }

  /** `[...grades].sort((a, b) => b.min - a.min)`: stable, descending by `min`,
      which is ascending by `-min`. */
  function SortByMinDescending(bands: seq<GradeBand>): seq<GradeBand> {
    SortBy(bands, NegMinKey)
  }

  /** `.find(...)`: the first band that admits `score`. */
  function FirstAdmitting(s: seq<GradeBand>, score: real): (r: Option<GradeBand>)
    ensures r.None? <==> forall i :: 0 <= i < |s| ==> !Admits(s[i], score)
    ensures r.Some? ==> exists i :: 0 <= i < |s| && s[i] == r.value && Admits(s[i], score) && NoneAdmitBelow(s, i, score)
  {
    if s == [] then None
    else if Admits(s[0], score) then Some(s[0])
    else
      var r := FirstAdmitting(s[1..], score);
      assert r.Some? ==> exists i :: 0 <= i < |s| - 1 && s[1..][i] == r.value && NoneAdmitBelow(s[1..], i, score);
      r
  }

  /** No band before position `n` admits `score`. */
  ghost predicate NoneAdmitBelow(s: seq<GradeBand>, n: nat, score: real) {
    forall j :: 0 <= j < n && j < |s| ==> !Admits(s[j], score)
  }

  /** The grade for `score`, or null. */
  function ResolveGrade(score: real, bands: seq<GradeBand>): Option<GradeBand> {
    FirstAdmitting(SortByMinDescending(bands), score)
  }

  /** Restricting a sequence to one key keeps its first admitting band when
      that band has the key. */
  lemma {:induction false} FirstAdmittingWithKey(s: seq<GradeBand>, score: real, k: real)
    requires FirstAdmitting(s, score).Some? && NegMinKey(FirstAdmitting(s, score).value) == k
    ensures FirstAdmitting(WithKey(s, NegMinKey, k), score) == FirstAdmitting(s, score)
  {
    var w := WithKey(s, NegMinKey, k);
    var rest := WithKey(s[1..], NegMinKey, k);
    if Admits(s[0], score) {
      assert FirstAdmitting(s, score) == Some(s[0]);
      assert w == [s[0]] + rest;
      assert w[0] == s[0];
    } else {
      assert FirstAdmitting(s, score) == FirstAdmitting(s[1..], score);
      FirstAdmittingWithKey(s[1..], score, k);
      if NegMinKey(s[0]) == k {
        assert w == [s[0]] + rest;
        assert w[1..] == rest;
      } else {
        assert w == rest;
      }
    }
  }

  /** The descending sort keeps exactly the table's bands. */
  lemma SortedHasSameBands(bands: seq<GradeBand>)
    ensures forall b :: b in bands <==> b in SortByMinDescending(bands)
  {
    SortByPermutes(bands, NegMinKey);
    var sorted := SortByMinDescending(bands);
    forall b ensures b in bands <==> b in sorted {
      assert b in bands <==> b in multiset(bands);
      assert b in sorted <==> b in multiset(sorted);
    }
  }

  /** The first admitting band of the descending sort has the greatest `min`
      among the admitting bands. */
  lemma FirstAdmittingHasGreatestMin(bands: seq<GradeBand>, score: real)
    requires ResolveGrade(score, bands).Some?
    ensures forall b :: b in bands && Admits(b, score) ==> b.min <= ResolveGrade(score, bands).value.min
  {
    var sorted := SortByMinDescending(bands);
    SortBySorted(bands, NegMinKey);
    SortedHasSameBands(bands);
    var g := FirstAdmitting(sorted, score).value;
    var p :| 0 <= p < |sorted| && sorted[p] == g && Admits(sorted[p], score) && NoneAdmitBelow(sorted, p, score);
    forall b | b in bands && Admits(b, score) ensures b.min <= g.min {
      var q :| 0 <= q < |sorted| && sorted[q] == b;
      assert !(q < p);
      assert NegMinKey(sorted[p]) <= NegMinKey(sorted[q]);
    }
  }

  /** Among the bands sharing the found band's `min`, the lookup takes the
      first in table order that admits the score. */
  lemma ResolveGradeTieBreak(score: real, bands: seq<GradeBand>)
    requires ResolveGrade(score, bands).Some?
    ensures ResolveGrade(score, bands) ==
      FirstAdmitting(WithKey(bands, NegMinKey, -ResolveGrade(score, bands).value.min), score)
  {
    var sorted := SortByMinDescending(bands);
    var found := FirstAdmitting(sorted, score);
    assert found == ResolveGrade(score, bands);
    var k := NegMinKey(found.value);
    assert k == -found.value.min;
    FirstAdmittingWithKey(sorted, score, k);
    DescendingKeepsTies(bands, k);
  }

  /** The descending sort keeps the table order among bands of equal `min`. */
  lemma DescendingKeepsTies(bands: seq<GradeBand>, k: real)
    ensures WithKey(SortByMinDescending(bands), NegMinKey, k) == WithKey(bands, NegMinKey, k)
  {
    SortByKeepsTies(bands, NegMinKey, k);
  }

  /** The lookup's contract: null exactly when no band admits the score;
      otherwise an admitting band of the table with the greatest `min` among
      the admitting bands, and among the bands with that `min` the first in
      table order that admits the score. */
  lemma ResolveGradeSpec(score: real, bands: seq<GradeBand>)
    ensures ResolveGrade(score, bands).None? <==> forall b :: b in bands ==> !Admits(b, score)
    ensures ResolveGrade(score, bands).Some? ==>
      && ResolveGrade(score, bands).value in bands
      && Admits(ResolveGrade(score, bands).value, score)
      && (forall b :: b in bands && Admits(b, score) ==> b.min <= ResolveGrade(score, bands).value.min)
      && ResolveGrade(score, bands) ==
           FirstAdmitting(WithKey(bands, NegMinKey, -ResolveGrade(score, bands).value.min), score)
  {
    var sorted := SortByMinDescending(bands);
    SortedHasSameBands(bands);
    if ResolveGrade(score, bands).Some? {
      FirstAdmittingHasGreatestMin(bands, score);
      ResolveGradeTieBreak(score, bands);
    } else {
      forall b | b in bands ensures !Admits(b, score) {
        var q :| 0 <= q < |sorted| && sorted[q] == b;
      }
    }
  }

  /** A table on which every score in its range has exactly one band: sorted
      and contiguous, every band of positive width, the ends inclusive, and
      each shared bound inclusive on exactly one side. */
  ghost predicate Partition(bands: seq<GradeBand>) {
    && |bands| > 0
    && Contiguous(bands)
    && (forall i :: 0 <= i < |bands| ==> bands[i].min < bands[i].max)
    && bands[0].minOperator == AtLeast
    && bands[|bands| - 1].maxOperator == AtMost
    && (forall i :: 1 <= i < |bands| ==> (bands[i - 1].maxOperator == AtMost) != (bands[i].minOperator == AtLeast))
  }

  /** On a contiguous table of positive-width bands each band ends no later
      than any later band starts, strictly so past the next one; so the
      `min`s strictly increase. */
  lemma {:induction false} ChainBounds(bands: seq<GradeBand>)
    requires Contiguous(bands)
    requires forall i :: 0 <= i < |bands| ==> bands[i].min < bands[i].max
    ensures forall i, j :: 0 <= i < j < |bands| ==> bands[i].max <= bands[j].min
    ensures forall i, j :: 0 <= i && i + 1 < j < |bands| ==> bands[i].max < bands[j].min
    ensures forall i, j :: 0 <= i < j < |bands| ==> bands[i].min < bands[j].min
  {
    if |bands| > 1 {
      var n := |bands| - 1;
      var p := bands[..n];
      ChainBounds(p);
      assert forall i :: 0 <= i < n ==> p[i] == bands[i];
      assert bands[n - 1].max == bands[n].min;
      forall i | 0 <= i < n - 1 ensures bands[i].max < bands[n].min {
        assert p[i].max <= p[n - 1].min;
      }
    }
  }

  /** On a partition no two bands admit the same score. */
  lemma AtMostOneAdmits(bands: seq<GradeBand>, score: real)
    requires Partition(bands)
    ensures forall i, j :: 0 <= i < j < |bands| && Admits(bands[i], score) ==> !Admits(bands[j], score)
  {
    ChainBounds(bands);
  }

  /** On a partition some band admits every score from the first band's
      `min` to the last band's `max`. */
  lemma SomeBandAdmits(bands: seq<GradeBand>, score: real)
    requires Partition(bands)
    requires bands[0].min <= score <= bands[|bands| - 1].max
    ensures exists i :: 0 <= i < |bands| && Admits(bands[i], score)
  {
    AdmitsFrom(bands, score, 0);
  }

  lemma {:induction false} AdmitsFrom(bands: seq<GradeBand>, score: real, i: nat)
    requires Partition(bands)
    requires i < |bands| && bands[i].min <= score <= bands[|bands| - 1].max
    ensures exists j :: 0 <= j < |bands| && Admits(bands[j], score)
    decreases |bands| - i
  {
    if i + 1 < |bands| && bands[i + 1].min <= score {
      AdmitsFrom(bands, score, i + 1);
    } else if score == bands[i].min && bands[i].minOperator == Above {
      assert Admits(bands[i - 1], score);
    } else {
      assert Admits(bands[i], score);
    }
  }

  /** On a partition the lookup finds a band exactly for the scores in the
      covered range, and the band it finds is the only one admitting the
      score. */
  lemma ResolveOnPartition(bands: seq<GradeBand>, score: real)
    requires Partition(bands)
    ensures ResolveGrade(score, bands).Some? <==> bands[0].min <= score <= bands[|bands| - 1].max
    ensures ResolveGrade(score, bands).Some? ==>
      forall i :: 0 <= i < |bands| ==> (Admits(bands[i], score) <==> bands[i] == ResolveGrade(score, bands).value)
  {
    ResolveGradeSpec(score, bands);
    ChainBounds(bands);
    AtMostOneAdmits(bands, score);
    if bands[0].min <= score <= bands[|bands| - 1].max {
      SomeBandAdmits(bands, score);
    }
  }

  /** On a contiguous table of bands with `min <= max`, no band starts
      before the first one starts. */
  lemma {:induction false} StartsAfterFirst(bands: seq<GradeBand>, i: nat)
    requires Contiguous(bands)
    requires forall b :: b in bands ==> b.min <= b.max
    requires i < |bands|
    ensures bands[0].min <= bands[i].min
  {
    if i > 0 {
      StartsAfterFirst(bands, i - 1);
      assert bands[i - 1] in bands;
    }
  }

  /** On a contiguous table of bands with `min <= max`, no band ends after
      the last one ends. */
  lemma {:induction false} EndsBeforeLast(bands: seq<GradeBand>, i: nat)
    requires Contiguous(bands)
    requires forall b :: b in bands ==> b.min <= b.max
    requires i < |bands|
    ensures bands[i].max <= bands[|bands| - 1].max
    decreases |bands| - i
  {
    if i < |bands| - 1 {
      EndsBeforeLast(bands, i + 1);
      assert bands[i + 1] in bands;
    }
  }

  /** On every table the validator accepts, a score below the first band's
      `min` or above the last band's `max` has no grade, whatever the
      operators. */
  lemma ResolveOutsideRange(gs: seq<RawBand>, score: real)
    requires gs != []
    requires NormalizeAll(gs).Success?
    requires Contiguous(SortByMin(NormalizeAll(gs).value))
    ensures var table := SortByMin(NormalizeAll(gs).value);
      |table| > 0 &&
      (score < table[0].min || score > table[|table| - 1].max ==> ResolveGrade(score, table).None?)
  {
    var table := SortByMin(NormalizeAll(gs).value);
    AcceptedTableShape(gs);
    if score < table[0].min || score > table[|table| - 1].max {
      OutsideSpanNone(table, score);
    }
  }

  /** On a non-empty contiguous table of bands with `min <= max`, a score
      outside [first `min`, last `max`] has no grade. */
  lemma OutsideSpanNone(table: seq<GradeBand>, score: real)
    requires Contiguous(table)
    requires forall b :: b in table ==> b.min <= b.max
    requires |table| > 0
    requires score < table[0].min || score > table[|table| - 1].max
    ensures ResolveGrade(score, table).None?
  {
    forall b | b in table ensures !Admits(b, score) {
      var i :| 0 <= i < |table| && table[i] == b;
      StartsAfterFirst(table, i);
      EndsBeforeLast(table, i);
    }
    ResolveGradeSpec(score, table);
  }

  /** Inside the range an accepted table can still leave a score without a
      grade: [0, 60) and (60, 100] pass the validator, which compares only
      the bounds, and the shared bound 60 is admitted by neither band. */
  lemma UnmatchedScoreInRange()
    ensures var raw := [RawBand(Finite(0.0), None, Finite(60.0), Some("<"), Some("C"), None),
                        RawBand(Finite(60.0), Some(">"), Finite(100.0), None, Some("A"), None)];
      var table := [GradeBand(0.0, AtLeast, 60.0, Below, Some("C"), None),
                    GradeBand(60.0, Above, 100.0, AtMost, Some("A"), None)];
      && NormalizeAll(raw) == Success(table)
      && SortByMin(table) == table
      && Contiguous(table)
      && table[0].min <= 60.0 <= table[1].max
      && ResolveGrade(60.0, table).None?
  {
    var table := [GradeBand(0.0, AtLeast, 60.0, Below, Some("C"), None),
                  GradeBand(60.0, Above, 100.0, AtMost, Some("A"), None)];
    var raw := [RawBand(Finite(0.0), None, Finite(60.0), Some("<"), Some("C"), None),
                RawBand(Finite(60.0), Some(">"), Finite(100.0), None, Some("A"), None)];
    NormalizeTwo(raw[0], raw[1], table[0], table[1]);
    SortByPair(table[0], table[1], MinKey);
    SortByPair(table[0], table[1], NegMinKey);
    assert SortByMinDescending(table) == [table[1], table[0]];
    assert !Admits(table[0], 60.0) && !Admits(table[1], 60.0);
  }

  /** The gap/overlap check compares only the bounds, not the operators.
      With the default `>=`/`<=` on both bands, the table [0, 60], [60, 100]
      is accepted, the shared bound 60 is admitted by both bands, and the
      lookup settles it by taking the upper band. */
  lemma SharedBoundMatchesTwoBands()
    ensures var raw := [RawBand(Finite(0.0), None, Finite(60.0), None, Some("C"), None),
                        RawBand(Finite(60.0), None, Finite(100.0), None, Some("A"), None)];
      var table := [GradeBand(0.0, AtLeast, 60.0, AtMost, Some("C"), None),
                    GradeBand(60.0, AtLeast, 100.0, AtMost, Some("A"), None)];
      && NormalizeAll(raw) == Success(table)
      && SortByMin(table) == table
      && Contiguous(table)
      && Admits(table[0], 60.0) && Admits(table[1], 60.0)
      && ResolveGrade(60.0, table) == Some(table[1])
  {
    var table := [GradeBand(0.0, AtLeast, 60.0, AtMost, Some("C"), None),
                  GradeBand(60.0, AtLeast, 100.0, AtMost, Some("A"), None)];
    var raw := [RawBand(Finite(0.0), None, Finite(60.0), None, Some("C"), None),
                RawBand(Finite(60.0), None, Finite(100.0), None, Some("A"), None)];
    NormalizeTwo(raw[0], raw[1], table[0], table[1]);
    SortByPair(table[0], table[1], MinKey);
    SortByPair(table[0], table[1], NegMinKey);
    assert SortByMinDescending(table) == [table[1], table[0]];
    assert Admits(table[1], 60.0);
  }

  /** Bands [0, 60), [60, 80), [80, 100]: 80 falls in the third band and
      59.999 in the first. */
  lemma ThreeBandExample()
    ensures var table := [GradeBand(0.0, AtLeast, 60.0, Below, Some("C"), None),
                          GradeBand(60.0, AtLeast, 80.0, Below, Some("B"), None),
                          GradeBand(80.0, AtLeast, 100.0, AtMost, Some("A"), None)];
      && Partition(table)
      && ResolveGrade(80.0, table) == Some(table[2])
      && ResolveGrade(59.999, table) == Some(table[0])
  {
    var table := [GradeBand(0.0, AtLeast, 60.0, Below, Some("C"), None),
                  GradeBand(60.0, AtLeast, 80.0, Below, Some("B"), None),
                  GradeBand(80.0, AtLeast, 100.0, AtMost, Some("A"), None)];
    assert Partition(table);
    ResolveOnPartition(table, 80.0);
    ResolveOnPartition(table, 59.999);
    assert Admits(table[2], 80.0);
    assert Admits(table[0], 59.999);
  }
}
