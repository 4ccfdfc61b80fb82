/** `validateWeightGrades` (routes/admin.js): normalises the raw bands an
    administrator submits, sorts them ascending by `min`, and rejects the
    table on the first gap or overlap between sorted neighbours. */
module GradeValidation {
  import opened Wrappers
  import opened WeightMatrix
  import opened StableSort

  /** The outcome of JavaScript's `Number(...)` coercion of a submitted
      bound: a finite number, or NaN / an infinity. */
  datatype RawNumber = Finite(value: real) | NotFinite

  /** A band as submitted. An operator is `None` when it is absent or any
      other falsy value; `Some("")` is falsy too. */
  datatype RawBand = RawBand(
    min: RawNumber, minOperator: Option<string>,
    max: RawNumber, maxOperator: Option<string>,
    gradeLabel: Option<string>, recommendation: Option<string>)

  /** The reasons the validator throws; `position` is the 1-based band
      number its message shows (`idx + 1`). */
  datatype GradeError =
    | NoBands
    | InvalidBound(position: nat)
    | MinAboveMax(position: nat)
    | InvalidOperator(position: nat)
    | Gap(prevMax: real, currMin: real)
    | Overlap(currMin: real)

  /** `op || fallback`. */
  function OrDefault(op: Option<string>, fallback: string): string {
    if op.None? || op.value == "" then fallback else op.value
  }

  function ParseMinOperator(s: string): Option<MinOperator> {
    if s == ">=" then Some(AtLeast) else if s == ">" then Some(Above) else None
  }

  function ParseMaxOperator(s: string): Option<MaxOperator> {
    if s == "<=" then Some(AtMost) else if s == "<" then Some(Below) else None
  }

  /** The per-band step of the `map`, with its three checks in source order:
      finite bounds, then `min <= max`, then the operators. */
  function NormalizeBand(g: RawBand, idx: nat): (r: Result<GradeBand, GradeError>)
    ensures r.Success? <==>
      g.min.Finite? && g.max.Finite? && g.min.value <= g.max.value &&
      ParseMinOperator(OrDefault(g.minOperator, ">=")).Some? &&
      ParseMaxOperator(OrDefault(g.maxOperator, "<=")).Some?
    ensures r.Success? ==>
      r.value.min == g.min.value && r.value.max == g.max.value &&
      r.value.gradeLabel == g.gradeLabel && r.value.recommendation == g.recommendation
    ensures r.Success? ==>
      Some(r.value.minOperator) == ParseMinOperator(OrDefault(g.minOperator, ">=")) &&
      Some(r.value.maxOperator) == ParseMaxOperator(OrDefault(g.maxOperator, "<="))
    ensures r.Failure? && (g.min.NotFinite? || g.max.NotFinite?) ==> r.error == InvalidBound(idx + 1)
    ensures r.Failure? && g.min.Finite? && g.max.Finite? ==>
      r.error == (if g.min.value > g.max.value then MinAboveMax(idx + 1) else InvalidOperator(idx + 1))
  {
    if g.min.NotFinite? || g.max.NotFinite? then Failure(InvalidBound(idx + 1))
    else if g.min.value > g.max.value then Failure(MinAboveMax(idx + 1))
    else
      var lo := ParseMinOperator(OrDefault(g.minOperator, ">="));
      var hi := ParseMaxOperator(OrDefault(g.maxOperator, "<="));
      if lo.None? || hi.None? then Failure(InvalidOperator(idx + 1))
      else Success(GradeBand(g.min.value, lo.value, g.max.value, hi.value, g.gradeLabel, g.recommendation))
  }

  /** The whole `map`: bands are normalised in input order and the first
      band that fails decides the error. */
  function NormalizeAll(gs: seq<RawBand>): (r: Result<seq<GradeBand>, GradeError>)
    ensures r.Success? <==> forall i :: 0 <= i < |gs| ==> NormalizeBand(gs[i], i).Success?
    ensures r.Success? ==>
      |r.value| == |gs| && forall i :: 0 <= i < |gs| ==> r.value[i] == NormalizeBand(gs[i], i).value
    ensures r.Failure? ==>
      exists i :: 0 <= i < |gs| && NormalizeBand(gs[i], i) == Failure(r.error) &&
        forall j :: 0 <= j < i ==> NormalizeBand(gs[j], j).Success?
  {
    if gs == [] then Success([])
    else
      var n := |gs| - 1;
      assert forall i :: 0 <= i < n ==> gs[..n][i] == gs[i];
      match NormalizeAll(gs[..n])
      case Failure(e) => Failure(e)
      case Success(prefix) =>
        match NormalizeBand(gs[n], n)
        case Failure(e) => Failure(e)
        case Success(b) => Success(prefix + [b])
  }

  function MinKey(b: GradeBand): real { b.min }

  /** `.sort((a, b) => a.min - b.min)`, which is stable. */
  function SortByMin(bands: seq<GradeBand>): seq<GradeBand> {
    SortBy(bands, MinKey)
  }

  /** Every band starts where its predecessor ends. */
  ghost predicate Contiguous(bands: seq<GradeBand>) {
    forall i :: 1 <= i < |bands| ==> bands[i].min == bands[i - 1].max
  }

  /** The adjacency check for one pair of sorted neighbours. */
  function PairError(prev: GradeBand, curr: GradeBand): (r: Option<GradeError>)
    ensures r.None? <==> curr.min == prev.max
    ensures r.Some? ==> (r.value.Gap? <==> curr.min > prev.max)
    ensures r.Some? && r.value.Gap? ==> r.value.prevMax == prev.max && r.value.currMin == curr.min
    ensures r.Some? && !r.value.Gap? ==> r.value == Overlap(curr.min)
  {
    if curr.min > prev.max then Some(Gap(prev.max, curr.min))
    else if curr.min < prev.max then Some(Overlap(curr.min))
    else None
  }

  /** `e` is the error of the first pair of neighbours in `bands` that do
      not meet. */
  ghost predicate FirstPairError(bands: seq<GradeBand>, e: GradeError) {
    exists i :: 1 <= i < |bands| && Some(e) == PairError(bands[i - 1], bands[i]) && ContiguousBelow(bands, i)
  }

  /** The first `n` bands are contiguous. */
  ghost predicate ContiguousBelow(bands: seq<GradeBand>, n: nat) {
    forall j :: 1 <= j < n && j < |bands| ==> bands[j].min == bands[j - 1].max
  }

  /** The `for` loop over adjacent pairs: it reports the first pair that
      does not meet, or nothing when the table is contiguous. */
  method CheckAdjacent(bands: seq<GradeBand>) returns (err: Option<GradeError>)
    ensures err.None? <==> Contiguous(bands)
    ensures err.Some? ==> FirstPairError(bands, err.value)
  {
    var i := 1;
    while i < |bands|
      invariant 1 <= i <= |bands| || |bands| == 0
      invariant ContiguousBelow(bands, i)
    {
      var prev, curr := bands[i - 1], bands[i];
      if curr.min > prev.max {
        return Some(Gap(prev.max, curr.min));
      }
      if curr.min < prev.max {
        return Some(Overlap(curr.min));
      }
      i := i + 1;
    }
    return None;
  }

  /** `validateWeightGrades(grades)`. `grades` is `None` when the field is
      missing or not an array. On success the table is the normalised bands,
      stably sorted ascending by `min`, and contiguous. */
  method ValidateWeightGrades(grades: Option<seq<RawBand>>) returns (r: Result<seq<GradeBand>, GradeError>)
    ensures grades.None? || grades.value == [] ==> r == Failure(NoBands)
    ensures grades.Some? && grades.value != [] && NormalizeAll(grades.value).Failure? ==>
      r == Failure(NormalizeAll(grades.value).error)
    ensures grades.Some? && grades.value != [] && NormalizeAll(grades.value).Success? ==>
      (r.Success? <==> Contiguous(SortByMin(NormalizeAll(grades.value).value)))
    ensures r.Success? ==>
      grades.Some? && NormalizeAll(grades.value).Success? && r.value == SortByMin(NormalizeAll(grades.value).value)
    ensures r.Failure? && grades.Some? && grades.value != [] && NormalizeAll(grades.value).Success? ==>
      FirstPairError(SortByMin(NormalizeAll(grades.value).value), r.error)
  {
    if grades.None? || |grades.value| == 0 {
      return Failure(NoBands);
    }
    var normalized := NormalizeAll(grades.value);
    if normalized.Failure? {
      return Failure(normalized.error);
    }
    var sorted := SortByMin(normalized.value);
    var err := CheckAdjacent(sorted);
    if err.Some? {
      return Failure(err.value);
    }
    return Success(sorted);
  }

  /** What an accepted table looks like: one band per submitted band, sorted
      ascending by `min`, a permutation of the normalised bands (so labels
      and recommendations are carried through), bands with equal `min` kept
      in input order, and every neighbour starting where the previous band
      ends. */
  lemma AcceptedTableShape(gs: seq<RawBand>)
    requires NormalizeAll(gs).Success?
    requires Contiguous(SortByMin(NormalizeAll(gs).value))
    ensures |SortByMin(NormalizeAll(gs).value)| == |gs|
    ensures SortedBy(SortByMin(NormalizeAll(gs).value), MinKey)
    ensures multiset(SortByMin(NormalizeAll(gs).value)) == multiset(NormalizeAll(gs).value)
    ensures forall k :: WithKey(SortByMin(NormalizeAll(gs).value), MinKey, k) == WithKey(NormalizeAll(gs).value, MinKey, k)
    ensures forall b :: b in SortByMin(NormalizeAll(gs).value) ==> b.min <= b.max
  {
    var normalized := NormalizeAll(gs).value;
    var table := SortByMin(normalized);
    SortByIsStableSort(normalized, MinKey);
    forall b | b in table ensures b.min <= b.max {
      assert b in multiset(normalized);
      var j :| 0 <= j < |normalized| && normalized[j] == b;
      assert normalized[j] == NormalizeBand(gs[j], j).value;
    }
  }

  /** Acceptance can depend on the order of the submitted bands: the stable
      sort keeps bands with equal `min` in input order, so the point band
      [0, 0] followed by [0, 10] is contiguous while the same two bands in
      the other order overlap. */
  lemma AcceptanceDependsOnOrder()
    ensures var point := RawBand(Finite(0.0), None, Finite(0.0), None, None, None);
      var wide := RawBand(Finite(0.0), None, Finite(10.0), None, None, None);
      && NormalizeAll([point, wide]).Success? && NormalizeAll([wide, point]).Success?
      && Contiguous(SortByMin(NormalizeAll([point, wide]).value))
      && !Contiguous(SortByMin(NormalizeAll([wide, point]).value))
  {
    var p0 := RawBand(Finite(0.0), None, Finite(0.0), None, None, None);
    var w0 := RawBand(Finite(0.0), None, Finite(10.0), None, None, None);
    var p := GradeBand(0.0, AtLeast, 0.0, AtMost, None, None);
    var w := GradeBand(0.0, AtLeast, 10.0, AtMost, None, None);
    SortByPair(p, w, MinKey);
    SortByPair(w, p, MinKey);
    NormalizeTwo(p0, w0, p, w);
    NormalizeTwo(w0, p0, w, p);
  }

  /** Two bands normalise to the pair of their normalised forms. */
  lemma NormalizeTwo(a: RawBand, b: RawBand, na: GradeBand, nb: GradeBand)
    requires NormalizeBand(a, 0) == Success(na) && NormalizeBand(b, 1) == Success(nb)
    ensures NormalizeAll([a, b]) == Success([na, nb])
  {
    var v := NormalizeAll([a, b]).value;
    assert v[0] == na && v[1] == nb;
    assert v == [na, nb];
  }
}
