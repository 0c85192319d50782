/**
 * The facility's stock-out estimate: one walk over the forecast buckets must find the exact first
 * zero of the piecewise-linear stock curve, and that answer must move the right way when the
 * facility is better or worse supplied.
 */
module StockoutEstimates {
  import opened Common

  /** The part of a facility snapshot that the estimate reads; `forecast` is one rate per bucket. */
  datatype Facility = Facility(clean: real, supply: real, throughput: real, bucket: real, forecast: seq<real>) {
    ghost predicate Valid() {
      supply >= 0.0 && throughput >= 0.0 && bucket > 0.0
    }

    function Horizon(): real { |forecast| as real * bucket }
  }

  datatype Limit = NoLimit | ByDemand | ByDirtySupply

  datatype StockoutEstimate = StockoutEstimate(eta: Option<real>, horizon: real, limitedBy: Limit)

  // -- the stock curve, from totals rather than from the walk

  function Lesser(a: real, b: real): real { if a <= b then a else b }

  function Sum(rates: seq<real>): real {
    if rates == [] then 0.0 else Sum(rates[..|rates| - 1]) + rates[|rates| - 1]
  }

  /** What the washer can wash in k buckets when it is never starved. */
  ghost function Capacity(f: Facility, k: nat): real { k as real * (f.throughput * f.bucket) }

  /** Balls washed by the end of the first k buckets: all that the washer can, until supply runs out. */
  ghost function Washed(f: Facility, k: nat): real { Lesser(f.supply, Capacity(f, k)) }

  ghost function Demanded(f: Facility, k: nat): real
    requires k <= |f.forecast|
  {
    f.bucket * Sum(f.forecast[..k])
  }

  /** Clean balls left when k buckets are over. */
  ghost function StockAfter(f: Facility, k: nat): real
    requires k <= |f.forecast|
  {
    f.clean + Washed(f, k) - Demanded(f, k)
  }

  /** The point a share of the way from a to b. */
  ghost function Line(a: real, b: real, share: real): real { a + share * (b - a) }

  /** Clean balls left after a share of bucket k has passed: stock moves in a straight line inside a bucket. */
  ghost function StockWithin(f: Facility, k: nat, share: real): real
    requires k < |f.forecast|
  {
    Line(StockAfter(f, k), StockAfter(f, k + 1), share)
  }

  /** The instant at which a share of bucket k has passed. */
  function Instant(bucket: real, k: nat, share: real): real { (k as real + share) * bucket }

  /** The curve stays above zero at every instant of the first k buckets. */
  ghost predicate PositiveThrough(f: Facility, k: nat)
    requires k <= |f.forecast|
  {
    && f.clean > 0.0
    && forall j: nat, share: real :: j < k && 0.0 <= share <= 1.0 ==> StockWithin(f, j, share) > 0.0
  }

  /** The curve reaches zero for the first time at `share` of bucket k. */
  ghost predicate FirstZero(f: Facility, k: nat, share: real) {
    && k < |f.forecast|
    && PositiveThrough(f, k)
    && 0.0 < share <= 1.0
    && StockWithin(f, k, share) == 0.0
    && forall earlier: real :: 0.0 <= earlier < share ==> StockWithin(f, k, earlier) > 0.0
  }

  /** Whether `eta` is the first instant at which nothing clean is left; None says there is none before the horizon. */
  ghost predicate IsStockout(f: Facility, eta: Option<real>) {
    match eta
    case None => PositiveThrough(f, |f.forecast|)
    case Some(t) => (f.clean <= 0.0 && t == 0.0) || exists k: nat, share: real :: FirstZero(f, k, share) && t == Instant(f.bucket, k, share)
  }

  // -- arithmetic on products

  /** Multiplying by a non-negative number keeps the order. */
  lemma ScaleUp(c: real, a: real, b: real)
    requires c >= 0.0 && a <= b
    ensures c * a <= c * b
  {
  }

  lemma ScaleBoth(a: real, b: real, c: real, d: real)
    requires 0.0 <= a <= c && 0.0 <= b <= d
    ensures 0.0 <= a * b <= c * d
  {
    assert a * b <= c * b;
    assert c * b <= c * d;
  }

  /** Dividing by a positive number undoes multiplying by it. */
  lemma QuotientAtLeast(a: real, b: real, c: real)
    requires c > 0.0
    ensures a <= b / c <==> a * c <= b
    ensures b / c * c == b
  {
    var q := b / c;
    assert q * c == b;
    assert a <= q ==> a * c <= q * c;
    assert a > q ==> a * c > q * c;
  }

  ghost function Part(share: real, a: real): real { share * a }

  lemma PartKeepsOrder(share: real, a: real, b: real)
    requires share >= 0.0 && a <= b
    ensures Part(share, a) <= Part(share, b)
  {
  }

  /** A point on a line is a weighted mean of the ends. */
  lemma Weighted(a: real, b: real, share: real)
    ensures Line(a, b, share) == Part(1.0 - share, a) + Part(share, b)
  {
  }

  lemma {:induction false} Between(a: real, b: real, c: real, d: real, share: real)
    requires a >= c && b >= d && 0.0 <= share <= 1.0
    ensures Line(a, b, share) >= Line(c, d, share)
  {
    hide *;
    Weighted(a, b, share);
    Weighted(c, d, share);
    PartKeepsOrder(1.0 - share, c, a);
    PartKeepsOrder(share, d, b);
  }

  // -- the walk

  /** Taking at most one more step's worth out of what is left adds up to the same minimum. */
  lemma OneMoreStep(supply: real, taken: real, step: real)
    requires supply >= 0.0 && step >= 0.0 && taken >= 0.0 && (step == 0.0 ==> taken == 0.0)
    ensures supply - Lesser(supply, taken) >= 0.0
    ensures Lesser(supply, taken + step) == Lesser(supply, taken) + Lesser(step, supply - Lesser(supply, taken))
  {
  }

  function WashRate(f: Facility, supply: real): real
    requires f.bucket > 0.0
  {
    Lesser(f.throughput, supply / f.bucket)
  }

  /** Capacity grows by a fixed step a bucket, and never shrinks. */
  lemma CapacityGrows(f: Facility, k: nat)
    requires f.Valid()
    ensures f.throughput * f.bucket >= 0.0
    ensures Capacity(f, k) >= 0.0 && (f.throughput * f.bucket == 0.0 ==> Capacity(f, k) == 0.0)
    ensures Capacity(f, k + 1) == Capacity(f, k) + f.throughput * f.bucket
  {
    var step := f.throughput * f.bucket;
    ScaleBoth(0.0, 0.0, f.throughput, f.bucket);
    ScaleBoth(0.0, 0.0, k as real, step);
    assert (k + 1) as real * step == k as real * step + step;
  }

  /** One bucket's washing: a full step, unless less is left than that. */
  lemma WashedInBucket(f: Facility, left: real)
    requires f.Valid()
    ensures WashRate(f, left) * f.bucket == Lesser(f.throughput * f.bucket, left)
    ensures WashRate(f, left) >= f.throughput <==> left >= f.throughput * f.bucket
  {
    QuotientAtLeast(f.throughput, left, f.bucket);
  }

  lemma {:induction false} NextBucketWashed(f: Facility, k: nat, left: real)
    requires f.Valid() && left == f.supply - Washed(f, k)
    ensures left - WashRate(f, left) * f.bucket >= 0.0
    ensures Washed(f, k + 1) == Washed(f, k) + WashRate(f, left) * f.bucket
    ensures WashRate(f, left) >= f.throughput <==> left >= f.throughput * f.bucket
  {
    CapacityGrows(f, k);
    WashedInBucket(f, left);
    hide Capacity, WashRate;
    OneMoreStep(f.supply, Capacity(f, k), f.throughput * f.bucket);
  }

  lemma NextBucketDemanded(f: Facility, k: nat)
    requires k < |f.forecast|
    ensures Demanded(f, k + 1) == Demanded(f, k) + f.forecast[k] * f.bucket
  {
    assert f.forecast[..k + 1][..k] == f.forecast[..k];
  }

  /** A straight line that is positive at both ends is positive between them. */
  lemma LineStaysPositive(f: Facility, k: nat)
    requires k < |f.forecast| && PositiveThrough(f, k) && StockAfter(f, k) > 0.0 && StockAfter(f, k + 1) > 0.0
    ensures PositiveThrough(f, k + 1)
  {
    forall share: real | 0.0 <= share <= 1.0 ensures StockWithin(f, k, share) > 0.0 {
      var low := Lesser(StockAfter(f, k), StockAfter(f, k + 1));
      Between(StockAfter(f, k), StockAfter(f, k + 1), low, low, share);
    }
  }

  /** The height of a line that starts at a and loses `fall` over the whole bucket. */
  ghost function Falling(a: real, fall: real, share: real): real { a - share * fall }

  /** Where a falling line meets zero. */
  lemma Crossing(a: real, fall: real, share: real)
    requires a > 0.0 && fall >= a && share == a / fall
    ensures 0.0 < share <= 1.0
    ensures Falling(a, fall, share) == 0.0
    ensures forall earlier: real :: 0.0 <= earlier < share ==> Falling(a, fall, earlier) > 0.0
  {
    QuotientAtLeast(1.0, a, fall);
    QuotientAtLeast(0.0, a, fall);
    assert share <= 1.0 by { assert share > 1.0 ==> share * fall > fall; }
    forall earlier: real | 0.0 <= earlier < share ensures Falling(a, fall, earlier) > 0.0 {
      assert earlier * fall < share * fall;
    }
  }

  lemma FallingIsTheLine(a: real, b: real, share: real)
    ensures Line(a, b, share) == Falling(a, a - b, share)
  {
  }

  lemma CrossingIsFirstZero(f: Facility, k: nat, share: real)
    requires k < |f.forecast| && PositiveThrough(f, k) && StockAfter(f, k) > 0.0 && StockAfter(f, k + 1) <= 0.0
    requires share == StockAfter(f, k) / (StockAfter(f, k) - StockAfter(f, k + 1))
    ensures FirstZero(f, k, share)
  {
    var fall := StockAfter(f, k) - StockAfter(f, k + 1);
    Crossing(StockAfter(f, k), fall, share);
    forall s: real ensures StockWithin(f, k, s) == Falling(StockAfter(f, k), fall, s) {
      FallingIsTheLine(StockAfter(f, k), StockAfter(f, k + 1), s);
    }
  }

  /** The time the source computes inside the bucket is that share of the bucket. */
  lemma InstantOfCrossing(f: Facility, k: nat, clean: real, excess: real)
    requires f.bucket > 0.0 && excess > 0.0
    ensures k as real * f.bucket + clean / excess == Instant(f.bucket, k, clean / (excess * f.bucket))
  {
    var share := clean / (excess * f.bucket);
    assert excess * f.bucket > 0.0;
    assert share * (excess * f.bucket) == clean;
    assert (share * f.bucket) * excess == clean;
    assert clean / excess == share * f.bucket;
  }

  /** What limits the facility in the bucket where stock runs out. */
  ghost function Limiting(f: Facility, k: nat): Limit {
    if f.supply - Washed(f, k) >= f.throughput * f.bucket then ByDemand else ByDirtySupply
  }

  /** The walk at the start of bucket k: what it holds in its variables, and the rates it computes from them. */
  ghost predicate AtBucket(f: Facility, k: nat, clean: real, supply: real, washRate: real, net: real) {
    && f.Valid() && k < |f.forecast|
    && clean == StockAfter(f, k) && supply == f.supply - Washed(f, k)
    && washRate == WashRate(f, supply) && net == washRate - f.forecast[k]
  }

  /** One bucket of the walk. */
  lemma {:induction false} NextBucket(f: Facility, k: nat, clean: real, supply: real, washRate: real, net: real)
    requires AtBucket(f, k, clean, supply, washRate, net)
    ensures StockAfter(f, k + 1) == clean + net * f.bucket
    ensures f.supply - Washed(f, k + 1) == supply - washRate * f.bucket >= 0.0
    ensures washRate >= f.throughput <==> Limiting(f, k) == ByDemand
  {
    NextBucketWashed(f, k, supply);
    NextBucketDemanded(f, k);
    assert net * f.bucket == washRate * f.bucket - f.forecast[k] * f.bucket;
  }

  lemma {:induction false} BucketRunsOut(f: Facility, k: nat, clean: real, supply: real, washRate: real, net: real, excess: real)
    returns (share: real)
    requires AtBucket(f, k, clean, supply, washRate, net)
    requires PositiveThrough(f, k) && clean > 0.0 && clean + net * f.bucket <= 0.0 && excess == -net
    ensures excess > 0.0 && FirstZero(f, k, share)
    ensures k as real * f.bucket + clean / excess == Instant(f.bucket, k, share)
  {
    NextBucket(f, k, clean, supply, washRate, net);
    NegativeFactor(net, f.bucket);
    share := clean / (excess * f.bucket);
    var after := StockAfter(f, k + 1);
    assert clean - after == excess * f.bucket && clean == StockAfter(f, k) && f.bucket > 0.0 && k < |f.forecast|;
    hide *;
    CrossingIsFirstZero(f, k, share);
    InstantOfCrossing(f, k, clean, excess);
  }

  lemma NegativeFactor(a: real, b: real)
    requires b > 0.0
    ensures a * b < 0.0 ==> a < 0.0
  {
    if a >= 0.0 { ScaleBoth(0.0, 0.0, a, b); }
  }

  lemma Found(f: Facility, k: nat, share: real, eta: real)
    requires FirstZero(f, k, share) && eta == Instant(f.bucket, k, share)
    ensures IsStockout(f, Some(eta)) && f.clean > 0.0
  {
  }

  lemma BucketStart(bucket: real, k: nat)
    ensures Instant(bucket, k, 0.0) == k as real * bucket
    ensures Instant(bucket, k + 1, 0.0) == Instant(bucket, k, 0.0) + bucket
  {
  }

  /** The walk over the forecast. It returns the exact first zero of the stock curve, and what limits it there. */
  method EstimateStockout(f: Facility) returns (e: StockoutEstimate)
    requires f.Valid()
    ensures e.horizon == f.Horizon()
    ensures IsStockout(f, e.eta)
    ensures f.clean <= 0.0 || e.eta.None? ==> e.limitedBy == NoLimit
    ensures f.clean > 0.0 && e.eta.Some? ==>
      exists k: nat, share: real :: FirstZero(f, k, share) && e.eta.value == Instant(f.bucket, k, share) && e.limitedBy == Limiting(f, k)
  {
    var horizon := f.Horizon();
    var clean, supply := f.clean, f.supply;
    assert Capacity(f, 0) == 0.0;
    if clean <= 0.0 {
      return StockoutEstimate(Some(0.0), horizon, NoLimit);
    }
    var elapsed := 0.0;
    assert clean == StockAfter(f, 0) && supply == f.supply - Washed(f, 0) by { assert f.forecast[..0] == []; }
    for i := 0 to |f.forecast|
      invariant elapsed == Instant(f.bucket, i, 0.0)
      invariant clean == StockAfter(f, i) && clean > 0.0
      invariant supply == f.supply - Washed(f, i)
      invariant PositiveThrough(f, i)
    {
      var demandRate := f.forecast[i];
      var washRate := WashRate(f, supply);
      var net := washRate - demandRate;
      assert AtBucket(f, i, clean, supply, washRate, net);
      hide *;
      NextBucket(f, i, clean, supply, washRate, net);
      if clean + net * f.bucket <= 0.0 {
        ghost var share := BucketRunsOut(f, i, clean, supply, washRate, net, demandRate - washRate);
        BucketStart(f.bucket, i);
        var eta := elapsed + clean / (demandRate - washRate);
        var limited := if washRate >= f.throughput then ByDemand else ByDirtySupply;
        Found(f, i, share, eta);
        return StockoutEstimate(Some(eta), horizon, limited);
      }
      LineStaysPositive(f, i);
      clean := clean + net * f.bucket;
      var left := supply - washRate * f.bucket;
      supply := if left > 0.0 then left else 0.0;
      BucketStart(f.bucket, i);
      BucketStart(f.bucket, i + 1);
      elapsed := elapsed + f.bucket;
    }
    return StockoutEstimate(None, horizon, NoLimit);
  }

  // -- what the answer means, and how it moves

  /** The answer is the whole truth about the curve: one instant at most can be the first zero. */
  lemma {:induction false} StockoutIsUnique(f: Facility, a: Option<real>, b: Option<real>)
    requires f.Valid() && IsStockout(f, a) && IsStockout(f, b)
    ensures a == b
  {
    BetterSuppliedLastsLonger(f, f, a, b);
    BetterSuppliedLastsLonger(f, f, b, a);
  }

  /** Same buckets; at least as much clean stock, washable supply and washing, and no more demand in any bucket. */
  ghost predicate BetterSupplied(better: Facility, worse: Facility) {
    && better.bucket == worse.bucket && |better.forecast| == |worse.forecast|
    && better.clean >= worse.clean && better.supply >= worse.supply && better.throughput >= worse.throughput
    && forall i :: 0 <= i < |worse.forecast| ==> better.forecast[i] <= worse.forecast[i]
  }

  /** No answer counts as later than every instant. */
  predicate NoEarlier(a: Option<real>, b: Option<real>) { a.None? || (b.Some? && b.value <= a.value) }

  lemma {:induction false} LessDemandSumsToLess(a: seq<real>, b: seq<real>)
    requires |a| == |b| && forall i :: 0 <= i < |a| ==> a[i] <= b[i]
    ensures Sum(a) <= Sum(b)
  {
    if a != [] { LessDemandSumsToLess(a[..|a| - 1], b[..|b| - 1]); }
  }

  lemma {:induction false} BetterSuppliedWashesMore(better: Facility, worse: Facility, k: nat)
    requires better.Valid() && worse.Valid() && BetterSupplied(better, worse)
    ensures Capacity(better, k) >= Capacity(worse, k)
  {
    ScaleBoth(worse.throughput, worse.bucket, better.throughput, better.bucket);
    ScaleUp(k as real, worse.throughput * worse.bucket, better.throughput * better.bucket);
  }

  lemma {:induction false} BetterSuppliedLosesLess(better: Facility, worse: Facility, k: nat)
    requires better.Valid() && worse.Valid() && BetterSupplied(better, worse) && k <= |worse.forecast|
    ensures Demanded(better, k) <= Demanded(worse, k)
  {
    LessDemandSumsToLess(better.forecast[..k], worse.forecast[..k]);
    ScaleUp(better.bucket, Sum(better.forecast[..k]), Sum(worse.forecast[..k]));
  }

  lemma BetterSuppliedHasMore(better: Facility, worse: Facility, k: nat)
    requires better.Valid() && worse.Valid() && BetterSupplied(better, worse) && k <= |worse.forecast|
    ensures StockAfter(better, k) >= StockAfter(worse, k)
  {
    hide Capacity, Demanded;
    BetterSuppliedWashesMore(better, worse, k);
    BetterSuppliedLosesLess(better, worse, k);
  }

  lemma BetterSuppliedHasMoreWithin(better: Facility, worse: Facility, k: nat, share: real)
    requires better.Valid() && worse.Valid() && BetterSupplied(better, worse) && k < |worse.forecast|
    requires 0.0 <= share <= 1.0
    ensures StockWithin(better, k, share) >= StockWithin(worse, k, share)
  {
    BetterSuppliedHasMore(better, worse, k);
    BetterSuppliedHasMore(better, worse, k + 1);
    Between(StockAfter(better, k), StockAfter(better, k + 1), StockAfter(worse, k), StockAfter(worse, k + 1), share);
  }

  /** Two instants compare as their buckets do, and within one bucket as the shares do. */
  lemma InstantsCompare(f: Facility, j: nat, s: real, k: nat, t: real)
    requires f.bucket > 0.0 && 0.0 <= s <= 1.0 && 0.0 <= t <= 1.0
    requires j < k || (j == k && s <= t)
    ensures Instant(f.bucket, j, s) <= Instant(f.bucket, k, t)
  {
    ScaleUp(f.bucket, j as real + s, k as real + t);
  }

  /** More clean or washable balls, or a faster washer, never bring the stock-out forward; more demand never puts it off. */
  lemma {:induction false} BetterSuppliedLastsLonger(better: Facility, worse: Facility, later: Option<real>, earlier: Option<real>)
    requires better.Valid() && worse.Valid() && BetterSupplied(better, worse)
    requires IsStockout(better, later) && IsStockout(worse, earlier)
    ensures NoEarlier(later, earlier)
  {
    if later.Some? {
      if better.clean <= 0.0 {
        StartsEmpty(worse, earlier);
        StartsEmpty(better, later);
      } else {
        var k: nat, share: real :| FirstZero(better, k, share) && later.value == Instant(better.bucket, k, share);
        BetterSuppliedHasMoreWithin(better, worse, k, share);
        assert StockWithin(worse, k, share) <= 0.0;
        hide *;
        ReachedByThen(worse, earlier, k, share);
      }
    }
  }

  lemma StartsEmpty(f: Facility, eta: Option<real>)
    requires IsStockout(f, eta) && f.clean <= 0.0
    ensures eta == Some(0.0)
  {
    assert forall k: nat, share: real :: !FirstZero(f, k, share);
  }

  /** Once the curve is known to be at or below zero somewhere, the first zero is no later. */
  lemma ReachedByThen(f: Facility, eta: Option<real>, k: nat, share: real)
    requires f.Valid() && IsStockout(f, eta) && k < |f.forecast| && 0.0 <= share <= 1.0
    requires StockWithin(f, k, share) <= 0.0
    ensures eta.Some? && eta.value <= Instant(f.bucket, k, share)
  {
    assert eta.Some?;
    if f.clean <= 0.0 {
      StartsEmpty(f, eta);
      assert (k as real + share) * f.bucket >= 0.0;
    } else {
      var j: nat, first: real :| FirstZero(f, j, first) && eta.value == Instant(f.bucket, j, first);
      assert !(k < j);
      assert k == j ==> first <= share;
      InstantsCompare(f, j, first, k, share);
    }
  }
}
