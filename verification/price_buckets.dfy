/** Price granularity: the bucket a CPM falls into. */
module PriceBuckets {
  import opened Options
  import opened RealArith

  datatype Range = Range(min: real, max: real, increment: real)

  /** `BidRounding`; the time split carries its random draw. */
  datatype Rounding = Down | Up | Nearest | TimeSplit(drawDown: bool)

  function Floor(x: real): real {
    x.Floor as real
  }

  function Ceil(x: real): real {
    -((-x).Floor as real)
  }

  /** Halves go away from zero. */
  function Round(x: real): real {
    if x >= 0.0 then Floor(x + 0.5) else Ceil(x - 0.5)
  }

  function Rounded(x: real, mode: Rounding): real {
    match mode
    case Nearest => Round(x)
    case TimeSplit(drawDown) => if drawDown then Floor(x) else Ceil(x)
    case Up => Ceil(x)
    case Down => Floor(x)
  }

  function CpmTarget(cpm: real, bucketMin: real, increment: real, mode: Rounding): real
    requires increment > 0.0
  {
    Rounded((cpm - bucketMin) / increment, mode) * increment + bucketMin
  }

  predicate In(cpm: real, r: Range) {
    r.min <= cpm <= r.max
  }

  /** The largest maximum, at least 0. */
  function TopMax(ranges: seq<Range>): real {
    if ranges == [] then 0.0
    else
      var rest, max := TopMax(ranges[..|ranges| - 1]), ranges[|ranges| - 1].max;
      if max > rest then max else rest
  }

  /** The last range that holds the price. */
  function LastIn(cpm: real, ranges: seq<Range>): Option<Range> {
    if ranges == [] then None
    else if In(cpm, ranges[|ranges| - 1]) then Some(ranges[|ranges| - 1])
    else LastIn(cpm, ranges[..|ranges| - 1])
  }

  /** The bucket before formatting; `None` is the empty string. */
  function Bucket(cpm: real, ranges: seq<Range>, mode: Rounding): Option<real> {
    if cpm > TopMax(ranges) then Some(TopMax(ranges))
    else
      var r := LastIn(cpm, ranges);
      if r.Some? && r.value.increment > 0.0
      then Some(CpmTarget(cpm, r.value.min, r.value.increment, mode))
      else None
  }

  method GetPriceBucket(cpm: real, ranges: seq<Range>, mode: Rounding) returns (bucket: Option<real>)
    ensures bucket == Bucket(cpm, ranges, mode)
  {
    var bucketMax, bucketMin, increment := 0.0, 0.0, 0.0;
    for i := 0 to |ranges|
      invariant bucketMax == TopMax(ranges[..i])
      invariant match LastIn(cpm, ranges[..i])
                case None => increment == 0.0
                case Some(r) => increment == r.increment && bucketMin == r.min
    {
      assert ranges[..i + 1][..i] == ranges[..i];
      if ranges[i].max > bucketMax {
        bucketMax := ranges[i].max;
      }
      if cpm >= ranges[i].min && cpm <= ranges[i].max {
        increment, bucketMin := ranges[i].increment, ranges[i].min;
      }
    }
    assert ranges[..|ranges|] == ranges;
    if cpm > bucketMax {
      return Some(bucketMax);
    }
    if increment > 0.0 {
      return Some(CpmTarget(cpm, bucketMin, increment, mode));
    }
    return None;
  }

  // ---- well-formed granularities

  /** Ascending ranges that touch, starting at zero or above, with positive increments. */
  ghost predicate Contiguous(ranges: seq<Range>) {
    && ranges != [] && ranges[0].min >= 0.0
    && (forall i :: 0 <= i < |ranges| ==> ranges[i].min < ranges[i].max && ranges[i].increment > 0.0)
    && (forall i :: 0 < i < |ranges| ==> ranges[i].min == ranges[i - 1].max)
  }

  /** Index of the range a price is bucketed in: it holds the price, and its end only if it is the last. */
  ghost predicate BucketedIn(cpm: real, ranges: seq<Range>, i: int) {
    0 <= i < |ranges| && In(cpm, ranges[i]) && (i < |ranges| - 1 ==> cpm < ranges[i].max)
  }

  lemma {:induction false} MaximaAscend(ranges: seq<Range>, i: nat, j: nat)
    requires Contiguous(ranges) && i <= j < |ranges|
    ensures ranges[i].max <= ranges[j].max && ranges[0].min <= ranges[i].min
    ensures i < j ==> ranges[i].max <= ranges[j].min
    decreases j
  {
    if i < j {
      MaximaAscend(ranges, i, j - 1);
    } else if i > 0 {
      MaximaAscend(ranges, i - 1, j - 1);
    }
  }

  lemma {:induction false} TopIsLast(ranges: seq<Range>)
    requires Contiguous(ranges)
    ensures TopMax(ranges) == ranges[|ranges| - 1].max > 0.0
  {
    var front := ranges[..|ranges| - 1];
    MaximaAscend(ranges, |ranges| - 1, |ranges| - 1);
    if front != [] {
      TopIsLast(front);
    }
  }

  lemma {:induction false} FindRange(cpm: real, ranges: seq<Range>) returns (i: nat)
    requires Contiguous(ranges) && ranges[0].min <= cpm <= ranges[|ranges| - 1].max
    ensures BucketedIn(cpm, ranges, i) && LastIn(cpm, ranges) == Some(ranges[i])
  {
    var n := |ranges| - 1;
    if In(cpm, ranges[n]) {
      i := n;
    } else {
      i := FindRange(cpm, ranges[..n]);
      assert ranges[..n][i] == ranges[i];
    }
  }

  lemma {:induction false} InNone(cpm: real, ranges: seq<Range>)
    requires forall i :: 0 <= i < |ranges| ==> !In(cpm, ranges[i])
    ensures LastIn(cpm, ranges) == None
  {
    if ranges != [] {
      InNone(cpm, ranges[..|ranges| - 1]);
    }
  }

  /** A price below the first range has no bucket. */
  lemma BelowRanges(cpm: real, ranges: seq<Range>, mode: Rounding)
    requires Contiguous(ranges) && cpm < ranges[0].min
    ensures Bucket(cpm, ranges, mode) == None
  {
    TopIsLast(ranges);
    forall i | 0 <= i < |ranges|
      ensures !In(cpm, ranges[i]) && cpm < ranges[i].max
    {
      MaximaAscend(ranges, i, i);
    }
    InNone(cpm, ranges);
  }

  lemma BucketInRange(cpm: real, ranges: seq<Range>, mode: Rounding) returns (i: nat)
    requires Contiguous(ranges) && ranges[0].min <= cpm <= TopMax(ranges)
    ensures BucketedIn(cpm, ranges, i)
    ensures Bucket(cpm, ranges, mode) == Some(CpmTarget(cpm, ranges[i].min, ranges[i].increment, mode))
  {
    TopIsLast(ranges);
    i := FindRange(cpm, ranges);
  }

  lemma RangesAscend(ranges: seq<Range>, c: real, c': real, i: nat, j: nat)
    requires Contiguous(ranges) && BucketedIn(c, ranges, i) && BucketedIn(c', ranges, j) && c <= c'
    ensures i <= j
    ensures i < j ==> ranges[i].max <= ranges[j].min
  {
    if j < i {
      MaximaAscend(ranges, j, i);
    } else {
      MaximaAscend(ranges, i, j);
    }
  }

  // ---- rounding down

  /** Rounding down stays within one increment below the price, and not below the range. */
  lemma DownBounds(cpm: real, min: real, inc: real)
    requires inc > 0.0 && min <= cpm
    ensures var b := CpmTarget(cpm, min, inc, Down);
            min <= b <= cpm < b + inc
  {
    hide Floor;
    var x := (cpm - min) / inc;
    FloorBounds(x);
    DownBoundsAt(cpm, min, inc, x, Floor(x));
  }

  lemma DownBoundsAt(cpm: real, min: real, inc: real, x: real, f: real)
    requires inc > 0.0 && x * inc == cpm - min && 0.0 <= f <= x < f + 1.0
    ensures min <= f * inc + min <= cpm < f * inc + min + inc
  {
    MulNonNegative(f, inc);
    MulMono(inc, f, x);
    NextIncrement(inc, f, x, cpm - min);
  }

  lemma NextIncrement(inc: real, f: real, x: real, p: real)
    requires inc > 0.0 && x < f + 1.0 && p == x * inc
    ensures p < f * inc + inc
  {
    MulStrict(inc, x, f + 1.0);
    assert inc * (f + 1.0) == f * inc + inc;
  }

  lemma FloorBounds(x: real)
    ensures Floor(x) <= x < Floor(x) + 1.0
    ensures x >= 0.0 ==> Floor(x) >= 0.0
  {
  }

  /** `Ceil` gives the least whole number that is not below. */
  lemma CeilBounds(x: real, n: int)
    ensures x <= Ceil(x) < x + 1.0
    ensures x <= n as real ==> Ceil(x) <= n as real
    ensures n as real < x ==> n as real + 1.0 <= Ceil(x)
  {
    var k := (-x).Floor;
    assert k as real <= -x < (k + 1) as real;
    if x <= n as real {
      assert -n < k + 1;
    }
    if n as real < x {
      assert k < -n;
    }
  }

  lemma FloorMono(x: real, y: real)
    requires x <= y
    ensures Floor(x) <= Floor(y)
  {
    assert x.Floor as real <= y < (y.Floor + 1) as real;
    assert x.Floor < y.Floor + 1;
  }

  lemma CeilMono(x: real, y: real)
    requires x <= y
    ensures Ceil(x) <= Ceil(y)
  {
    FloorMono(-y, -x);
  }

  lemma QuotientMono(a: real, b: real, inc: real)
    requires inc > 0.0 && a <= b
    ensures a / inc <= b / inc
  {
  }

  lemma TargetMono(c: real, c': real, min: real, inc: real, mode: Rounding)
    requires inc > 0.0 && c <= c' && (mode == Down || mode == Up)
    ensures CpmTarget(c, min, inc, mode) <= CpmTarget(c', min, inc, mode)
  {
    hide Floor, Ceil;
    var x, y := (c - min) / inc, (c' - min) / inc;
    QuotientMono(c - min, c' - min, inc);
    FloorMono(x, y);
    CeilMono(x, y);
    MulMono(inc, Rounded(x, mode), Rounded(y, mode));
  }

  /** Down: at most the price, within an increment of it, and the top maximum above all ranges. */
  lemma DownIsTight(cpm: real, ranges: seq<Range>)
    requires Contiguous(ranges) && ranges[0].min <= cpm
    ensures var b := Bucket(cpm, ranges, Down);
            && b.Some? && b.value <= cpm
            && (cpm > TopMax(ranges) ==> b.value == TopMax(ranges))
            && (cpm <= TopMax(ranges) ==>
                  exists i :: BucketedIn(cpm, ranges, i) && ranges[i].min <= b.value && cpm < b.value + ranges[i].increment)
  {
    hide CpmTarget;
    if cpm <= TopMax(ranges) {
      var i := BucketInRange(cpm, ranges, Down);
      DownBounds(cpm, ranges[i].min, ranges[i].increment);
    }
  }

  /** Down is monotone in the price, across range boundaries and over the top. */
  lemma DownMonotone(c: real, c': real, ranges: seq<Range>)
    requires Contiguous(ranges) && ranges[0].min <= c <= c'
    ensures Bucket(c, ranges, Down).Some? && Bucket(c', ranges, Down).Some?
    ensures Bucket(c, ranges, Down).value <= Bucket(c', ranges, Down).value
  {
    hide CpmTarget;
    TopIsLast(ranges);
    if c <= TopMax(ranges) {
      var i := BucketInRange(c, ranges, Down);
      DownBounds(c, ranges[i].min, ranges[i].increment);
      if c' <= TopMax(ranges) {
        var j := BucketInRange(c', ranges, Down);
        RangesAscend(ranges, c, c', i, j);
        DownBounds(c', ranges[j].min, ranges[j].increment);
        TargetMono(c, c', ranges[i].min, ranges[i].increment, Down);
      }
    }
  }

  // ---- rounding up

  /** The range is a whole number of increments wide. */
  ghost predicate Whole(r: Range)
    requires r.increment > 0.0
  {
    var n := (r.max - r.min) / r.increment;
    n == Floor(n)
  }

  ghost predicate UpMonotone(ranges: seq<Range>) {
    forall c, c' :: ranges != [] && ranges[0].min <= c <= c' ==>
      && Bucket(c, ranges, Up).Some? && Bucket(c', ranges, Up).Some?
      && Bucket(c, ranges, Up).value <= Bucket(c', ranges, Up).value
  }

  lemma UpBounds(cpm: real, r: Range)
    requires r.increment > 0.0 && In(cpm, r) && Whole(r)
    ensures cpm <= CpmTarget(cpm, r.min, r.increment, Up) <= r.max
  {
    hide Ceil;
    var x, n := (cpm - r.min) / r.increment, (r.max - r.min) / r.increment;
    assert x * r.increment == cpm - r.min && n * r.increment == r.max - r.min;
    QuotientMono(cpm - r.min, r.max - r.min, r.increment);
    CeilBounds(x, n.Floor);
    MulMono(r.increment, x, Ceil(x));
    MulMono(r.increment, Ceil(x), n);
  }

  lemma WholeUpMonotone(c: real, c': real, ranges: seq<Range>)
    requires Contiguous(ranges) && ranges[0].min <= c <= c'
    requires forall i :: 0 <= i < |ranges| ==> Whole(ranges[i])
    ensures Bucket(c, ranges, Up).Some? && Bucket(c', ranges, Up).Some?
    ensures Bucket(c, ranges, Up).value <= Bucket(c', ranges, Up).value
  {
    hide CpmTarget, Whole;
    TopIsLast(ranges);
    if c <= TopMax(ranges) {
      var i := BucketInRange(c, ranges, Up);
      UpBounds(c, ranges[i]);
      if c' <= TopMax(ranges) {
        var j := BucketInRange(c', ranges, Up);
        RangesAscend(ranges, c, c', i, j);
        UpBounds(c', ranges[j]);
        TargetMono(c, c', ranges[i].min, ranges[i].increment, Up);
      } else {
        MaximaAscend(ranges, i, |ranges| - 1);
      }
    }
  }

  /** Half way between the last whole increment of the range and its maximum. */
  lemma BetweenIncrements(n: real) returns (x: real)
    requires n > 0.0 && n != Floor(n)
    ensures 0.0 < x < n < Ceil(x)
  {
    hide Ceil;
    var k := n.Floor;
    FloorBounds(n);
    x := (k as real + n) / 2.0;
    CeilBounds(x, k);
  }

  /** In a range that is not whole, some price below the maximum is rounded past it. */
  lemma Overshoot(r: Range) returns (c: real)
    requires r.increment > 0.0 && r.min < r.max && !Whole(r)
    ensures r.min <= c < r.max && CpmTarget(c, r.min, r.increment, Up) > r.max
  {
    hide Ceil, Floor;
    var n := (r.max - r.min) / r.increment;
    assert n * r.increment == r.max - r.min;
    var x := BetweenIncrements(n);
    c := r.min + r.increment * x;
    MulNonNegative(r.increment, x);
    MulStrict(r.increment, x, n);
    MulStrict(r.increment, n, Ceil(x));
    assert (c - r.min) / r.increment == x;
  }

  /** Rounding up is monotone in the price if and only if every range is a whole number of increments wide. */
  lemma UpMonotoneExactly(ranges: seq<Range>)
    requires Contiguous(ranges)
    ensures UpMonotone(ranges) <==> forall i :: 0 <= i < |ranges| ==> Whole(ranges[i])
  {
    hide CpmTarget, Whole;
    if forall i :: 0 <= i < |ranges| ==> Whole(ranges[i]) {
      forall c, c' | ranges[0].min <= c <= c'
        ensures Bucket(c, ranges, Up).Some? && Bucket(c', ranges, Up).Some?
        ensures Bucket(c, ranges, Up).value <= Bucket(c', ranges, Up).value
      {
        WholeUpMonotone(c, c', ranges);
      }
    } else {
      var i :| 0 <= i < |ranges| && !Whole(ranges[i]);
      NotWholeNotMonotone(ranges, i);
    }
  }

  lemma NotWholeNotMonotone(ranges: seq<Range>, i: nat)
    requires Contiguous(ranges) && i < |ranges| && !Whole(ranges[i])
    ensures !UpMonotone(ranges)
  {
    hide CpmTarget, Whole;
    TopIsLast(ranges);
    var r := ranges[i];
    var c := Overshoot(r);
    MaximaAscend(ranges, 0, i);
    MaximaAscend(ranges, i, |ranges| - 1);
    var j := BucketInRange(c, ranges, Up);
    SameRange(ranges, c, i, j);
    if i == |ranges| - 1 {
      assert Bucket(r.max + 1.0, ranges, Up) == Some(r.max);
      assert c <= r.max + 1.0;
    } else {
      var k := BucketInRange(r.max, ranges, Up);
      assert BucketedIn(r.max, ranges, i + 1);
      SameRange(ranges, r.max, i + 1, k);
      TargetAtMin(ranges[i + 1]);
      assert Bucket(r.max, ranges, Up) == Some(r.max);
      assert c <= r.max;
    }
  }

  lemma SameRange(ranges: seq<Range>, c: real, i: nat, j: nat)
    requires Contiguous(ranges) && BucketedIn(c, ranges, i) && BucketedIn(c, ranges, j)
    ensures i == j
  {
    RangesAscend(ranges, c, c, i, j);
    RangesAscend(ranges, c, c, j, i);
  }

  lemma TargetAtMin(r: Range)
    requires r.increment > 0.0
    ensures CpmTarget(r.min, r.min, r.increment, Up) == r.min
  {
    assert (r.min - r.min) / r.increment == 0.0;
  }

  // ---- the other modes

  lemma RoundBounds(x: real)
    ensures -0.5 <= Round(x) - x <= 0.5
    ensures x >= 0.0 ==> Round(x) >= 0.0
  {
    hide Ceil;
    if x < 0.0 {
      CeilBounds(x - 0.5, 0);
    }
  }

  /** Up: at least the price and less than one increment above it. */
  lemma UpIsTight(cpm: real, ranges: seq<Range>) returns (i: nat)
    requires Contiguous(ranges) && ranges[0].min <= cpm <= TopMax(ranges)
    ensures BucketedIn(cpm, ranges, i)
    ensures var b := Bucket(cpm, ranges, Up);
            b.Some? && cpm <= b.value < cpm + ranges[i].increment
  {
    hide CpmTarget, Bucket;
    i := BucketInRange(cpm, ranges, Up);
    UpTarget(cpm, ranges[i].min, ranges[i].increment);
  }

  lemma UpTarget(cpm: real, min: real, inc: real)
    requires inc > 0.0
    ensures cpm <= CpmTarget(cpm, min, inc, Up) < cpm + inc
  {
    hide Ceil, Floor, Round;
    var x := (cpm - min) / inc;
    CeilBounds(x, 0);
    UpAt(cpm, min, inc, x, Ceil(x), x * inc, Ceil(x) * inc);
  }

  lemma Apart(x: real, n: real, inc: real, p: real, q: real, e: real)
    requires p == x * inc && q == n * inc && e == (n - x) * inc
    ensures q == p + e
  {
  }

  lemma AtMost(d: real, hi: real, inc: real, e: real, h: real)
    requires inc > 0.0 && d <= hi && e == d * inc && h == hi * inc
    ensures e <= h && (d < hi ==> e < h)
  {
    var f := (hi - d) * inc;
    Apart(d, hi, inc, e, h, f);
    if d < hi {
      assert f > 0.0;
    }
  }

  lemma UpAt(cpm: real, min: real, inc: real, x: real, c: real, p: real, q: real)
    requires inc > 0.0 && p == x * inc == cpm - min && q == c * inc && x <= c < x + 1.0
    ensures cpm <= q + min < cpm + inc
  {
    var e := (c - x) * inc;
    Apart(x, c, inc, p, q, e);
    AtMost(0.0, c - x, inc, 0.0, e);
    AtMost(c - x, 1.0, inc, e, inc);
  }

  /** Nearest: within half an increment of the price. */
  lemma NearestIsNear(cpm: real, ranges: seq<Range>) returns (i: nat)
    requires Contiguous(ranges) && ranges[0].min <= cpm <= TopMax(ranges)
    ensures BucketedIn(cpm, ranges, i)
    ensures var b, inc := Bucket(cpm, ranges, Nearest), ranges[i].increment;
            b.Some? && cpm - inc / 2.0 <= b.value <= cpm + inc / 2.0
  {
    hide CpmTarget, Bucket;
    i := BucketInRange(cpm, ranges, Nearest);
    NearestTarget(cpm, ranges[i].min, ranges[i].increment);
  }

  lemma NearestTarget(cpm: real, min: real, inc: real)
    requires inc > 0.0
    ensures cpm - inc / 2.0 <= CpmTarget(cpm, min, inc, Nearest) <= cpm + inc / 2.0
  {
    hide Ceil, Floor, Round;
    var x := (cpm - min) / inc;
    RoundBounds(x);
    NearAt(cpm, min, inc, x, Round(x), x * inc, Round(x) * inc);
  }

  lemma NearAt(cpm: real, min: real, inc: real, x: real, n: real, p: real, q: real)
    requires inc > 0.0 && p == x * inc == cpm - min && q == n * inc && -0.5 <= n - x <= 0.5
    ensures cpm - inc / 2.0 <= q + min <= cpm + inc / 2.0
  {
    var e := (n - x) * inc;
    Apart(x, n, inc, p, q, e);
    AtMost(-0.5, n - x, inc, -inc / 2.0, e);
    AtMost(n - x, 0.5, inc, e, inc / 2.0);
  }

  /** A time split gives one of the two neighbouring buckets, as the draw has it. */
  lemma TimeSplitIsNeighbour(cpm: real, ranges: seq<Range>, drawDown: bool)
    ensures Bucket(cpm, ranges, TimeSplit(drawDown)) == Bucket(cpm, ranges, if drawDown then Down else Up)
  {
  }

  /** It happens: 0.90 is rounded up to 1.50 while 2.00, above the range, gets its maximum of 1.00. */
  lemma UpGoesDown()
    ensures var ranges := [Range(0.0, 1.0, 0.75)];
            Bucket(0.9, ranges, Up) == Some(1.5) && Bucket(2.0, ranges, Up) == Some(1.0)
  {
    var r := Range(0.0, 1.0, 0.75);
    assert [r][..0] == [] && TopMax([r]) == 1.0;
    CeilBounds(1.2, 1);
    CeilBounds(1.2, 2);
    assert 0.9 / 0.75 == 1.2;
  }
}
