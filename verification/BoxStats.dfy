/** Box-plot statistics of one bucket's values, over the reals. */
module BoxStats {
  import opened Wrappers

  datatype Candle = Candle(
    q1: real, q3: real, median: real, iqr: real,
    upperFence: real, lowerFence: real, extremeUpper: real, extremeLower: real,
    whiskerHigh: real, whiskerLow: real,
    outliers: seq<real>, extremes: seq<real>, count: nat)

  // ----- sorting and the array operations -----

  ghost predicate IsSorted(a: seq<real>) {
    forall i, j :: 0 <= i <= j < |a| ==> a[i] <= a[j]
  }

  function Insert(x: real, a: seq<real>): seq<real> {
    if a == [] || x <= a[0] then [x] + a else [a[0]] + Insert(x, a[1..])
  }

  function Sort(a: seq<real>): seq<real> {
    if a == [] then [] else Insert(a[0], Sort(a[1..]))
  }

  function Filter(a: seq<real>, keep: real -> bool): seq<real> {
    if a == [] then [] else (if keep(a[0]) then [a[0]] else []) + Filter(a[1..], keep)
  }

  function Max(a: seq<real>): (m: real)
    requires a != []
    ensures m in a && forall x :: x in a ==> x <= m
  {
    if |a| == 1 then a[0] else
    var m := Max(a[1..]);
    assert forall x :: x in a ==> x == a[0] || x in a[1..];
    if a[0] >= m then a[0] else m
  }

  function Min(a: seq<real>): (m: real)
    requires a != []
    ensures m in a && forall x :: x in a ==> m <= x
  {
    if |a| == 1 then a[0] else
    var m := Min(a[1..]);
    assert forall x :: x in a ==> x == a[0] || x in a[1..];
    if a[0] <= m then a[0] else m
  }

  /** The value at a fractional position of a sorted array, by linear interpolation. */
  function Interpolate(a: seq<real>, pos: real): real
    requires 0.0 <= pos <= (|a| - 1) as real
  {
    var lo := pos.Floor;
    if lo == |a| - 1 then a[lo] else a[lo] + (pos - lo as real) * (a[lo + 1] - a[lo])
  }

  /** Where the q-th percentile lies in a sorted array of `n` values; `q` is a fraction. */
  function VirtualIndex(n: nat, q: real): (pos: real)
    requires n > 0 && 0.0 <= q <= 1.0
    ensures 0.0 <= pos <= (n - 1) as real
  {
    q * (n - 1) as real
  }

  function Percentile(a: seq<real>, q: real): real
    requires a != [] && 0.0 <= q <= 1.0
  {
    SortIsSorted(a);
    Interpolate(Sort(a), VirtualIndex(|a|, q))
  }

  /** The candle drawn around given quartiles. */
  function BoxAround(values: seq<real>, q1: real, median: real, q3: real): Candle
    requires values != []
  {
    var iqr := q3 - q1;
    var upper, lower := q3 + 1.5 * iqr, q1 - 1.5 * iqr;
    var farUpper, farLower := q3 + 3.0 * iqr, q1 - 3.0 * iqr;
    var inFence := Filter(values, InFence(lower, upper));
    Candle(
      q1, q3, median, iqr, upper, lower, farUpper, farLower,
      if inFence != [] then Max(inFence) else Max(values),
      if inFence != [] then Min(inFence) else Min(values),
      Filter(values, Outlier(lower, upper, farLower, farUpper)),
      Filter(values, Extreme(farLower, farUpper)),
      |values|)
  }

  /** None for the empty list, of which there are no statistics. */
  function ComputeBoxStats(values: seq<real>): (c: Option<Candle>)
    ensures c.None? <==> values == []
  {
    if values == [] then None else
    Some(BoxAround(values, Percentile(values, 0.25), Percentile(values, 0.5), Percentile(values, 0.75)))
  }

  function InFence(lower: real, upper: real): real -> bool {
    x => lower <= x <= upper
  }

  function Outlier(lower: real, upper: real, farLower: real, farUpper: real): real -> bool {
    x => (upper < x <= farUpper) || (farLower <= x < lower)
  }

  function Extreme(farLower: real, farUpper: real): real -> bool {
    x => x > farUpper || x < farLower
  }

  // ----- what sorting and filtering do -----

  lemma PrependSorted(x: real, a: seq<real>)
    requires IsSorted(a) && forall j :: 0 <= j < |a| ==> x <= a[j]
    ensures IsSorted([x] + a)
  {
  }

  lemma {:induction false} InsertIsSorted(x: real, a: seq<real>)
    requires IsSorted(a)
    ensures IsSorted(Insert(x, a)) && |Insert(x, a)| == |a| + 1
    ensures multiset(Insert(x, a)) == multiset(a) + multiset{x}
  {
    if a == [] || x <= a[0] {
    } else {
      InsertIsSorted(x, a[1..]);
      var rest := Insert(x, a[1..]);
      assert a == [a[0]] + a[1..];
      forall j | 0 <= j < |rest| ensures a[0] <= rest[j] {
        assert rest[j] in multiset(rest);
        assert rest[j] == x || rest[j] in a[1..];
      }
      PrependSorted(a[0], rest);
    }
  }

  lemma {:induction false} SortIsSorted(a: seq<real>)
    ensures IsSorted(Sort(a)) && |Sort(a)| == |a| && multiset(Sort(a)) == multiset(a)
  {
    if a != [] {
      SortIsSorted(a[1..]);
      InsertIsSorted(a[0], Sort(a[1..]));
      assert a == [a[0]] + a[1..];
    }
  }

  lemma HeadIsLeast(a: seq<real>, x: real)
    requires IsSorted(a) && x in multiset(a)
    ensures a != [] && a[0] <= x
  {
    assert x in a;
  }

  lemma TailCounts(a: seq<real>)
    requires a != [] && IsSorted(a)
    ensures multiset(a[1..]) == multiset(a) - multiset{a[0]}
    ensures a == [a[0]] + a[1..] && IsSorted(a[1..])
  {
    assert a == [a[0]] + a[1..];
    assert multiset(a) == multiset{a[0]} + multiset(a[1..]);
  }

  /** There is only one sorted arrangement of a multiset. */
  lemma {:induction false} SortedUnique(a: seq<real>, b: seq<real>)
    requires IsSorted(a) && IsSorted(b) && multiset(a) == multiset(b)
    ensures a == b
  {
    if a == [] || b == [] {
      assert |multiset(a)| == |a| && |multiset(b)| == |b|;
    } else {
      assert a[0] in multiset(a) && b[0] in multiset(b);
      hide IsSorted;
      HeadIsLeast(b, a[0]);
      HeadIsLeast(a, b[0]);
      assert a[0] == b[0];
      TailCounts(a);
      TailCounts(b);
      SortedUnique(a[1..], b[1..]);
    }
  }

  lemma {:induction false} FilterCounts(a: seq<real>, keep: real -> bool, x: real)
    ensures multiset(Filter(a, keep))[x] == if keep(x) then multiset(a)[x] else 0
  {
    if a != [] {
      FilterCounts(a[1..], keep, x);
      assert a == [a[0]] + a[1..];
    }
  }

  lemma FilterMember(a: seq<real>, keep: real -> bool)
    ensures forall v :: v in Filter(a, keep) <==> v in a && keep(v)
  {
    forall v ensures v in Filter(a, keep) <==> v in a && keep(v) {
      FilterCounts(a, keep, v);
      assert v in Filter(a, keep) <==> multiset(Filter(a, keep))[v] > 0;
      assert v in a <==> multiset(a)[v] > 0;
    }
  }

  lemma FilterOfSame(a: seq<real>, b: seq<real>, keep: real -> bool)
    requires multiset(a) == multiset(b)
    ensures multiset(Filter(a, keep)) == multiset(Filter(b, keep))
  {
    forall x: real ensures multiset(Filter(a, keep))[x] == multiset(Filter(b, keep))[x] {
      FilterCounts(a, keep, x);
      FilterCounts(b, keep, x);
    }
  }

  lemma SameMembers(a: seq<real>, b: seq<real>)
    requires multiset(a) == multiset(b)
    ensures |a| == |b|
    ensures a != [] ==> Max(a) == Max(b) && Min(a) == Min(b)
  {
    assert |multiset(a)| == |a| && |multiset(b)| == |b|;
    assert forall x :: x in a <==> x in multiset(a);
    assert forall x :: x in b <==> x in multiset(b);
  }

  // ----- interpolation -----

  /** A point on the line from `x` to `x + d`. */
  function Along(x: real, d: real, f: real): real {
    x + f * d
  }

  lemma AlongBounds(x: real, d: real, f: real)
    requires 0.0 <= d && 0.0 <= f <= 1.0
    ensures x <= Along(x, d, f) <= x + d
  {
    Scale(0.0, f, d);
    Scale(f, 1.0, d);
  }

  lemma AlongMonotone(x: real, d: real, f: real, g: real)
    requires 0.0 <= d && f <= g
    ensures Along(x, d, f) <= Along(x, d, g)
  {
    Scale(f, g, d);
  }

  lemma Scale(f: real, g: real, d: real)
    requires f <= g && 0.0 <= d
    ensures f * d <= g * d
  {
    assert 0.0 <= (g - f) * d;
  }

  lemma InterpolateAlong(a: seq<real>, pos: real)
    requires 0.0 <= pos <= (|a| - 1) as real
    ensures 0 <= pos.Floor <= |a| - 1
    ensures var lo := pos.Floor;
            Interpolate(a, pos) == if lo == |a| - 1 then a[lo] else Along(a[lo], a[lo + 1] - a[lo], pos - lo as real)
  {
  }

  lemma InterpolateBounds(a: seq<real>, pos: real)
    requires IsSorted(a) && 0.0 <= pos <= (|a| - 1) as real
    ensures a[pos.Floor] <= Interpolate(a, pos)
    ensures pos.Floor < |a| - 1 ==> Interpolate(a, pos) <= a[pos.Floor + 1]
    ensures pos.Floor == |a| - 1 ==> Interpolate(a, pos) == a[pos.Floor]
  {
    hide Interpolate, Along;
    InterpolateAlong(a, pos);
    var lo := pos.Floor;
    if lo < |a| - 1 {
      AlongBounds(a[lo], a[lo + 1] - a[lo], pos - lo as real);
    }
  }

  lemma InterpolateMonotone(a: seq<real>, p: real, q: real)
    requires IsSorted(a) && 0.0 <= p <= q <= (|a| - 1) as real
    ensures Interpolate(a, p) <= Interpolate(a, q)
  {
    hide Interpolate, Along;
    InterpolateAlong(a, p);
    InterpolateAlong(a, q);
    var i, j := p.Floor, q.Floor;
    if i < j {
      InterpolateBounds(a, p);
      InterpolateBounds(a, q);
      assert a[i + 1] <= a[j];
    } else if i < |a| - 1 {
      AlongMonotone(a[i], a[i + 1] - a[i], p - i as real, q - i as real);
    }
  }

  /** Some value of the array lies between the fences, however small the array. */
  lemma SomeValueInFence(a: seq<real>)
    requires IsSorted(a) && a != []
    ensures var top := (|a| - 1) as real;
            var q1, q3 := Interpolate(a, 0.25 * top), Interpolate(a, 0.75 * top);
            exists i :: 0 <= i < |a| && q1 - 1.5 * (q3 - q1) <= a[i] <= q3 + 1.5 * (q3 - q1)
  {
    var n := |a|;
    var lo, hi := 0.25 * (n - 1) as real, 0.75 * (n - 1) as real;
    InterpolateMonotone(a, lo, hi);
    InterpolateBounds(a, lo);
    InterpolateBounds(a, hi);
    if n == 1 {
      assert lo.Floor == 0 && hi.Floor == 0;
    } else if n == 2 {
      assert lo.Floor == 0 && hi.Floor == 0;
      assert Interpolate(a, lo) == a[0] + 0.25 * (a[1] - a[0]);
      assert Interpolate(a, hi) == a[0] + 0.75 * (a[1] - a[0]);
    } else {
      assert lo.Floor + 1 <= hi.Floor;
    }
  }

  // ----- the theorems -----

  /** The quartiles are in order, and some value lies between the fences they define. */
  lemma Quartiles(values: seq<real>)
    requires values != []
    ensures var q1, q3 := Percentile(values, 0.25), Percentile(values, 0.75);
            && q1 <= Percentile(values, 0.5) <= q3
            && exists v :: v in values && q1 - 1.5 * (q3 - q1) <= v <= q3 + 1.5 * (q3 - q1)
  {
    var a, top := Sort(values), (|values| - 1) as real;
    SortIsSorted(values);
    hide Sort, Interpolate;
    InterpolateMonotone(a, 0.25 * top, 0.5 * top);
    InterpolateMonotone(a, 0.5 * top, 0.75 * top);
    SomeValueInFence(a);
    var q1, q3 := Percentile(values, 0.25), Percentile(values, 0.75);
    var i :| 0 <= i < |a| && q1 - 1.5 * (q3 - q1) <= a[i] <= q3 + 1.5 * (q3 - q1);
    assert a[i] in multiset(a);
    assert a[i] in values;
  }

  /** The order of the landmarks, and the whiskers: the smallest and the largest
      value between the fences, which always exist. */
  lemma BoxShape(values: seq<real>)
    requires values != []
    ensures var c := ComputeBoxStats(values).value;
            && c.extremeLower <= c.lowerFence <= c.q1 <= c.median <= c.q3 <= c.upperFence <= c.extremeUpper
            && c.lowerFence <= c.whiskerLow <= c.whiskerHigh <= c.upperFence
            && c.whiskerLow in values && c.whiskerHigh in values
            && (forall v :: v in values && c.lowerFence <= v <= c.upperFence
                  ==> c.whiskerLow <= v <= c.whiskerHigh)
  {
    Quartiles(values);
    hide Percentile;
    ShapeAround(values, Percentile(values, 0.25), Percentile(values, 0.5), Percentile(values, 0.75));
  }

  lemma ShapeAround(values: seq<real>, q1: real, median: real, q3: real)
    requires values != [] && q1 <= median <= q3
    requires exists v :: v in values && q1 - 1.5 * (q3 - q1) <= v <= q3 + 1.5 * (q3 - q1)
    ensures var c := BoxAround(values, q1, median, q3);
            && c.extremeLower <= c.lowerFence <= q1
            && q3 <= c.upperFence <= c.extremeUpper
            && c.lowerFence <= c.whiskerLow <= c.whiskerHigh <= c.upperFence
            && c.whiskerLow in values && c.whiskerHigh in values
            && (forall v :: v in values && c.lowerFence <= v <= c.upperFence
                  ==> c.whiskerLow <= v <= c.whiskerHigh)
  {
    hide Filter, Max, Min;
    var v :| v in values && q1 - 1.5 * (q3 - q1) <= v <= q3 + 1.5 * (q3 - q1);
    var keep := InFence(q1 - 1.5 * (q3 - q1), q3 + 1.5 * (q3 - q1));
    FilterMember(values, keep);
    assert v in Filter(values, keep);
  }

  /** Every value is counted exactly once: in fence, as an outlier, or as an extreme. */
  lemma BoxPartition(values: seq<real>)
    requires values != []
    ensures var c := ComputeBoxStats(values).value;
            var inside := Filter(values, InFence(c.lowerFence, c.upperFence));
            && multiset(values) == multiset(inside) + multiset(c.outliers) + multiset(c.extremes)
            && c.count == |inside| + |c.outliers| + |c.extremes|
  {
    Quartiles(values);
    hide Percentile, BoxAround;
    PartitionAround(values, Percentile(values, 0.25), Percentile(values, 0.5), Percentile(values, 0.75));
  }

  lemma PartitionAround(values: seq<real>, q1: real, median: real, q3: real)
    requires values != [] && q1 <= q3
    ensures var c := BoxAround(values, q1, median, q3);
            var inside := Filter(values, InFence(c.lowerFence, c.upperFence));
            && multiset(values) == multiset(inside) + multiset(c.outliers) + multiset(c.extremes)
            && c.count == |inside| + |c.outliers| + |c.extremes|
  {
    hide Filter, Max, Min;
    var iqr := q3 - q1;
    PartitionBy(values, q1 - 1.5 * iqr, q3 + 1.5 * iqr, q1 - 3.0 * iqr, q3 + 3.0 * iqr);
  }

  lemma PartitionBy(values: seq<real>, lower: real, upper: real, farLower: real, farUpper: real)
    requires farLower <= lower <= upper <= farUpper
    ensures var inside := Filter(values, InFence(lower, upper));
            var outliers := Filter(values, Outlier(lower, upper, farLower, farUpper));
            var extremes := Filter(values, Extreme(farLower, farUpper));
            && multiset(values) == multiset(inside) + multiset(outliers) + multiset(extremes)
            && |values| == |inside| + |outliers| + |extremes|
  {
    hide Filter;
    var inside := Filter(values, InFence(lower, upper));
    var outliers := Filter(values, Outlier(lower, upper, farLower, farUpper));
    var extremes := Filter(values, Extreme(farLower, farUpper));
    var parts := multiset(inside) + multiset(outliers) + multiset(extremes);
    forall x: real ensures multiset(values)[x] == parts[x] {
      FilterCounts(values, InFence(lower, upper), x);
      FilterCounts(values, Outlier(lower, upper, farLower, farUpper), x);
      FilterCounts(values, Extreme(farLower, farUpper), x);
    }
    assert multiset(values) == parts;
    assert |multiset(values)| == |parts|;
  }

  /** Equal up to the order in which outliers and extremes are listed. */
  ghost predicate SameCandle(a: Candle, b: Candle) {
    && a.(outliers := [], extremes := []) == b.(outliers := [], extremes := [])
    && multiset(a.outliers) == multiset(b.outliers)
    && multiset(a.extremes) == multiset(b.extremes)
  }

  lemma SamePercentile(a: seq<real>, b: seq<real>, q: real)
    requires a != [] && b != [] && multiset(a) == multiset(b) && 0.0 <= q <= 1.0
    ensures Percentile(a, q) == Percentile(b, q)
  {
    hide VirtualIndex, Interpolate, Sort;
    SortIsSorted(a);
    SortIsSorted(b);
    SortedUnique(Sort(a), Sort(b));
    SameMembers(a, b);
  }

  lemma SameAround(a: seq<real>, b: seq<real>, q1: real, median: real, q3: real)
    requires a != [] && b != [] && multiset(a) == multiset(b)
    ensures SameCandle(BoxAround(a, q1, median, q3), BoxAround(b, q1, median, q3))
  {
    hide Filter, Max, Min;
    var iqr := q3 - q1;
    var upper, lower := q3 + 1.5 * iqr, q1 - 1.5 * iqr;
    var farUpper, farLower := q3 + 3.0 * iqr, q1 - 3.0 * iqr;
    SameMembers(a, b);
    FilterOfSame(a, b, InFence(lower, upper));
    SameMembers(Filter(a, InFence(lower, upper)), Filter(b, InFence(lower, upper)));
    FilterOfSame(a, b, Outlier(lower, upper, farLower, farUpper));
    FilterOfSame(a, b, Extreme(farLower, farUpper));
  }

  /** The statistics depend on the multiset of values only, so values read back in
      score order and values taken in id order give the same candle. */
  lemma BoxOfPermutation(a: seq<real>, b: seq<real>)
    requires a != [] && multiset(a) == multiset(b)
    ensures b != [] && SameCandle(ComputeBoxStats(a).value, ComputeBoxStats(b).value)
  {
    SameMembers(a, b);
    SamePercentile(a, b, 0.25);
    SamePercentile(a, b, 0.5);
    SamePercentile(a, b, 0.75);
    hide Percentile, SameCandle, BoxAround;
    SameAround(a, b, Percentile(a, 0.25), Percentile(a, 0.5), Percentile(a, 0.75));
  }

  // ----- the landmarks in plain numbers -----

  /** The value a quarter of the way through a sorted array, four times over: position
      `k` plus `r` quarters of a step. */
  function Quarter(a: seq<real>, k: nat, r: nat): real
    requires k < |a| && r < 4 && (r > 0 ==> k + 1 < |a|)
  {
    if r == 0 then 4.0 * a[k] else (4 - r) as real * a[k] + r as real * a[k + 1]
  }

  lemma QuarterAt(a: seq<real>, pos: real, k: nat, r: nat)
    requires r < 4 && 4.0 * pos == (4 * k + r) as real && 0.0 <= pos <= (|a| - 1) as real
    ensures k < |a| && (r > 0 ==> k + 1 < |a|) && 4.0 * Interpolate(a, pos) == Quarter(a, k, r)
  {
    assert pos == k as real + r as real / 4.0;
    assert pos.Floor == k;
    if k + 1 < |a| { Step(a[k], a[k + 1], r); }
  }

  lemma Step(x: real, y: real, r: nat)
    requires r < 4
    ensures 4.0 * (x + r as real / 4.0 * (y - x)) == (4 - r) as real * x + r as real * y
  {
    match r case 0 => case 1 => case 2 => case 3 =>
  }

  lemma BoxFields(values: seq<real>)
    requires values != []
    ensures var c := ComputeBoxStats(values).value;
            && c.q1 == Percentile(values, 0.25) && c.median == Percentile(values, 0.5)
            && c.q3 == Percentile(values, 0.75) && c.iqr == c.q3 - c.q1 && c.count == |values|
            && c.upperFence == c.q3 + 1.5 * c.iqr && c.lowerFence == c.q1 - 1.5 * c.iqr
            && c.extremeUpper == c.q3 + 3.0 * c.iqr && c.extremeLower == c.q1 - 3.0 * c.iqr
            && c.outliers == Filter(values, Outlier(c.lowerFence, c.upperFence, c.extremeLower, c.extremeUpper))
            && c.extremes == Filter(values, Extreme(c.extremeLower, c.extremeUpper))
  {
    hide Filter, Max, Min, Percentile;
  }

  lemma PercentileAt(values: seq<real>, a: seq<real>, q: real, k: nat, r: nat)
    requires values != [] && IsSorted(a) && multiset(a) == multiset(values)
    requires 0.0 <= q <= 1.0 && r < 4 && 4.0 * VirtualIndex(|values|, q) == (4 * k + r) as real
    ensures |a| == |values| && k < |a| && (r > 0 ==> k + 1 < |a|)
    ensures 4.0 * Percentile(values, q) == Quarter(a, k, r)
  {
    hide Sort, Interpolate, IsSorted, Quarter, VirtualIndex;
    SortIsSorted(values);
    SortedUnique(a, Sort(values));
    QuarterAt(a, VirtualIndex(|values|, q), k, r);
  }

  /** The three positions, in quarters of a step. */
  lemma Positions(n: nat)
    requires n > 0
    ensures 4.0 * VirtualIndex(n, 0.25) == (n - 1) as real == (4 * ((n - 1) / 4) + (n - 1) % 4) as real
    ensures 4.0 * VirtualIndex(n, 0.5) == (2 * (n - 1)) as real == (4 * (2 * (n - 1) / 4) + 2 * (n - 1) % 4) as real
    ensures 4.0 * VirtualIndex(n, 0.75) == (3 * (n - 1)) as real == (4 * (3 * (n - 1) / 4) + 3 * (n - 1) % 4) as real
  {
  }

  /** The quartiles and the median, four times over. */
  lemma QuartersOf(values: seq<real>, a: seq<real>)
    requires values != [] && IsSorted(a) && multiset(a) == multiset(values)
    ensures |a| == |values|
    ensures var top := |a| - 1;
            && (top % 4 > 0 ==> top / 4 + 1 < |a|)
            && 4.0 * Percentile(values, 0.25) == Quarter(a, top / 4, top % 4)
            && (2 * top % 4 > 0 ==> 2 * top / 4 + 1 < |a|) && 2 * top / 4 < |a|
            && 4.0 * Percentile(values, 0.5) == Quarter(a, 2 * top / 4, 2 * top % 4)
            && (3 * top % 4 > 0 ==> 3 * top / 4 + 1 < |a|) && 3 * top / 4 < |a|
            && 4.0 * Percentile(values, 0.75) == Quarter(a, 3 * top / 4, 3 * top % 4)
  {
    hide Percentile, IsSorted, VirtualIndex, Quarter;
    var top := |values| - 1;
    Positions(|values|);
    PercentileAt(values, a, 0.25, top / 4, top % 4);
    PercentileAt(values, a, 0.5, 2 * top / 4, 2 * top % 4);
    PercentileAt(values, a, 0.75, 3 * top / 4, 3 * top % 4);
  }

  /** Median, quartiles and fences of a list, read off any sorted arrangement of it. */
  lemma BoxInNumbers(values: seq<real>, a: seq<real>)
    requires values != [] && IsSorted(a) && multiset(a) == multiset(values)
    ensures |a| == |values|
    ensures var n, c := |a|, ComputeBoxStats(values).value;
            && 2.0 * c.median == a[(n - 1) / 2] + a[n / 2]
            && (var k, r := (n - 1) / 4, (n - 1) % 4;
                4.0 * c.q1 == if r == 0 then 4.0 * a[k] else (4 - r) as real * a[k] + r as real * a[k + 1])
            && (var k, r := 3 * (n - 1) / 4, 3 * (n - 1) % 4;
                4.0 * c.q3 == if r == 0 then 4.0 * a[k] else (4 - r) as real * a[k] + r as real * a[k + 1])
    ensures var c := ComputeBoxStats(values).value;
            && c.iqr == c.q3 - c.q1 && c.count == |values|
            && c.upperFence - c.q3 == c.q1 - c.lowerFence == 1.5 * (c.q3 - c.q1)
            && c.extremeUpper - c.q3 == c.q1 - c.extremeLower == 3.0 * (c.q3 - c.q1)
  {
    hide ComputeBoxStats, Percentile, IsSorted;
    BoxFields(values);
    QuartersOf(values, a);
    HalfWay(a);
  }

  lemma HalfWay(a: seq<real>)
    requires a != []
    ensures var k, r := 2 * (|a| - 1) / 4, 2 * (|a| - 1) % 4;
            && k < |a| && (r > 0 ==> k + 1 < |a|)
            && Quarter(a, k, r) == 2.0 * (a[(|a| - 1) / 2] + a[|a| / 2])
  {
    var n := |a|;
    if n % 2 == 1 {
      assert 2 * (n - 1) / 4 == (n - 1) / 2 == n / 2 && 2 * (n - 1) % 4 == 0;
    } else {
      assert 2 * (n - 1) / 4 == (n - 1) / 2 && n / 2 == (n - 1) / 2 + 1 && 2 * (n - 1) % 4 == 2;
    }
  }

  /** The upper quartile mirrors the lower one. */
  lemma QuartilesMirror(values: seq<real>, mirrored: seq<real>)
    requires values != [] && |mirrored| == |values| && forall i :: 0 <= i < |values| ==> mirrored[i] == -values[i]
    ensures ComputeBoxStats(mirrored).value.q1 == -ComputeBoxStats(values).value.q3
  {
    hide ComputeBoxStats, Percentile, Quarter, IsSorted, Sort;
    var a, n := Sort(values), |values|;
    SortIsSorted(values);
    var b := seq(n, i requires 0 <= i < n => -a[n - 1 - i]);
    SameCounts(values, mirrored, a, b);
    Reversed(a, b);
    ArrangementsMirror(values, mirrored, a, b);
  }

  lemma ArrangementsMirror(values: seq<real>, mirrored: seq<real>, a: seq<real>, b: seq<real>)
    requires values != [] && mirrored != [] && IsSorted(a) && IsSorted(b)
    requires multiset(a) == multiset(values) && multiset(b) == multiset(mirrored)
    requires |a| == |b| && forall i :: 0 <= i < |a| ==> b[i] == -a[|a| - 1 - i]
    ensures ComputeBoxStats(mirrored).value.q1 == -ComputeBoxStats(values).value.q3
  {
    hide ComputeBoxStats, Percentile, Quarter, IsSorted;
    QuartersOf(values, a);
    QuartersOf(mirrored, b);
    BoxFields(values);
    BoxFields(mirrored);
    QuarterMirrors(a, b);
  }

  lemma Reversed(a: seq<real>, b: seq<real>)
    requires IsSorted(a) && |a| == |b| && forall i :: 0 <= i < |a| ==> b[i] == -a[|a| - 1 - i]
    ensures IsSorted(b)
  {
  }

  lemma SameCounts(values: seq<real>, mirrored: seq<real>, a: seq<real>, b: seq<real>)
    requires |mirrored| == |values| && forall i :: 0 <= i < |values| ==> mirrored[i] == -values[i]
    requires |a| == |b| && forall i :: 0 <= i < |a| ==> b[i] == -a[|a| - 1 - i]
    requires multiset(a) == multiset(values)
    ensures multiset(b) == multiset(mirrored)
  {
    forall x: real ensures multiset(b)[x] == multiset(mirrored)[x] {
      MirrorCounts(a, b, x);
      NegationCounts(values, mirrored, x);
    }
  }

  lemma QuarterMirrors(a: seq<real>, b: seq<real>)
    requires a != [] && |a| == |b| && forall i :: 0 <= i < |a| ==> b[i] == -a[|a| - 1 - i]
    ensures var k, r, l, s := (|a| - 1) / 4, (|a| - 1) % 4, 3 * (|a| - 1) / 4, 3 * (|a| - 1) % 4;
            && k < |a| && l < |a| && (r > 0 ==> k + 1 < |a|) && (s > 0 ==> l + 1 < |a|)
            && Quarter(b, k, r) == -Quarter(a, l, s)
  {
    var k, r := (|a| - 1) / 4, (|a| - 1) % 4;
    assert |a| - 1 == 4 * k + r;
    match r {
      case 0 => assert 3 * (|a| - 1) / 4 == 3 * k && 3 * (|a| - 1) % 4 == 0;
      case 1 => assert 3 * (|a| - 1) / 4 == 3 * k && 3 * (|a| - 1) % 4 == 3;
      case 2 => assert 3 * (|a| - 1) / 4 == 3 * k + 1 && 3 * (|a| - 1) % 4 == 2;
      case 3 => assert 3 * (|a| - 1) / 4 == 3 * k + 2 && 3 * (|a| - 1) % 4 == 1;
    }
  }

  lemma {:induction false} NegationCounts(a: seq<real>, b: seq<real>, x: real)
    requires |a| == |b| && forall i :: 0 <= i < |a| ==> b[i] == -a[i]
    ensures multiset(b)[x] == multiset(a)[-x]
  {
    if a != [] {
      assert a == [a[0]] + a[1..] && b == [b[0]] + b[1..];
      NegationCounts(a[1..], b[1..], x);
    }
  }

  lemma {:induction false} MirrorCounts(a: seq<real>, b: seq<real>, x: real)
    requires |a| == |b| && forall i :: 0 <= i < |a| ==> b[i] == -a[|a| - 1 - i]
    ensures multiset(b)[x] == multiset(a)[-x]
  {
    if a != [] {
      var n := |a|;
      assert a == [a[0]] + a[1..] && b == b[..n - 1] + [b[n - 1]];
      MirrorCounts(a[1..], b[..n - 1], x);
    }
  }

  /** Which values are outliers and which are extreme. */
  lemma OutliersInNumbers(values: seq<real>, x: real)
    requires values != []
    ensures var c := ComputeBoxStats(values).value;
            && multiset(c.outliers)[x]
               == (if (c.upperFence < x <= c.extremeUpper) || (c.extremeLower <= x < c.lowerFence)
                   then multiset(values)[x] else 0)
            && multiset(c.extremes)[x] == (if x > c.extremeUpper || x < c.extremeLower then multiset(values)[x] else 0)
  {
    var c := ComputeBoxStats(values).value;
    hide Filter, ComputeBoxStats;
    BoxFields(values);
    FilterCounts(values, Outlier(c.lowerFence, c.upperFence, c.extremeLower, c.extremeUpper), x);
    FilterCounts(values, Extreme(c.extremeLower, c.extremeUpper), x);
  }
}
