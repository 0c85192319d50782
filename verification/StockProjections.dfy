/**
 * The committed-stock projection: one pass over a handful of event times must find the first instant,
 * among all instants up to the horizon, at which clean balls run out.
 */
module StockProjections {
  import opened Common

  datatype InboundBatch = InboundBatch(eta: real, balls: nat) {
    predicate Valid() { eta >= 0.0 && balls >= 1 }
  }

  datatype Plan = Plan(initial: real, rates: seq<real>, bucket: real, inbound: seq<InboundBatch>, horizon: real) {
    predicate Valid() { forall i :: 0 <= i < |inbound| ==> inbound[i].Valid() }

    predicate NumbersAreSane() {
      initial >= 0.0 && bucket > 0.0 && horizon > 0.0 && forall i :: 0 <= i < |rates| ==> rates[i] >= 0.0
    }

    function Schedule(): real { Start(bucket, |rates|) }

    predicate HorizonIsCovered() { horizon <= Schedule() || horizon - Schedule() <= 0.000000000001 * horizon }

    predicate Accepted() { NumbersAreSane() && rates != [] && HorizonIsCovered() }

    /** The horizon that is projected: one that is a rounding error past the schedule is cut back to it. */
    function Reach(): real { if horizon <= Schedule() then horizon else Schedule() }
  }

  datatype PlanError = BadNumber | NoDemandRates | HorizonBeyondSchedule

  /** When bucket k starts. */
  function Start(bucket: real, k: nat): real { k as real * bucket }

  lemma StartsInOrder(bucket: real, j: nat, k: nat)
    requires bucket > 0.0 && j <= k
    ensures Start(bucket, j) <= Start(bucket, k)
    ensures j < k ==> Start(bucket, j) + bucket <= Start(bucket, k)
  {
    if j < k {
      assert (k - j) as real >= 1.0;
      assert Start(bucket, k) - Start(bucket, j) == (k - j) as real * bucket;
    }
  }

  lemma NextStart(bucket: real, k: nat)
    ensures Start(bucket, k + 1) == Start(bucket, k) + bucket
    ensures Start(bucket, 0) == 0.0
  {
  }

  // -- supply and demand as functions of time

  /** The part of a bucket that has passed, `since` minutes after it starts. */
  function Clip(since: real, bucket: real): real { if since < 0.0 then 0.0 else if since > bucket then bucket else since }

  /** Balls asked for by time t, counting the first n buckets. */
  ghost function DemandIn(rates: seq<real>, bucket: real, n: nat, t: real): real
    requires n <= |rates|
  {
    if n == 0 then 0.0
    else DemandIn(rates, bucket, n - 1, t) + Times(rates[n - 1], Clip(t - Start(bucket, n - 1), bucket))
  }

  function Times(rate: real, minutes: real): real { rate * minutes }

  ghost function Demand(p: Plan, t: real): real { DemandIn(p.rates, p.bucket, |p.rates|, t) }

  /** Balls delivered by time t. */
  ghost function ArrivedBy(inbound: seq<InboundBatch>, t: real): int {
    if inbound == [] then 0
    else ArrivedBy(inbound[1..], t) + if inbound[0].eta <= t then inbound[0].balls else 0
  }

  /** Balls delivered exactly at time t. */
  function ArrivingAt(inbound: seq<InboundBatch>, t: real): (balls: nat)
    ensures (forall i :: 0 <= i < |inbound| ==> inbound[i].Valid()) ==> (balls == 0 <==> !ArrivesAt(inbound, t))
  {
    if inbound == [] then 0
    else
      var rest := ArrivingAt(inbound[1..], t);
      assert ArrivesAt(inbound, t) <==> inbound[0].eta == t || ArrivesAt(inbound[1..], t);
      rest + if inbound[0].eta == t then inbound[0].balls else 0
  }

  predicate ArrivesAt(inbound: seq<InboundBatch>, t: real) { exists i :: 0 <= i < |inbound| && inbound[i].eta == t }

  /** Clean balls at time t, with everything that has arrived by then; negative when demand went unmet. */
  ghost function Stock(p: Plan, t: real): real { p.initial + ArrivedBy(p.inbound, t) as real - Demand(p, t) }

  /** Demand goes on right after t. */
  ghost predicate DemandGrowsAfter(p: Plan, t: real) {
    t < p.Reach() && forall later: real :: t < later <= p.Reach() ==> Demand(p, later) > Demand(p, t)
  }

  /** Demand was drawing on the stock right up to t. */
  ghost predicate DemandGrewUntil(p: Plan, t: real) {
    0.0 < t && forall before: real :: 0.0 <= before < t ==> Demand(p, before) < Demand(p, t)
  }

  ghost predicate DrainedAt(p: Plan, t: real) { Stock(p, t) == 0.0 && DemandGrewUntil(p, t) && !ArrivesAt(p.inbound, t) }

  /** At t nothing is left, and either demand goes on, or it took the last ball and no delivery came just in time. */
  ghost predicate RunsOutAt(p: Plan, t: real) { DrainedAt(p, t) || (Stock(p, t) == 0.0 && DemandGrowsAfter(p, t)) }

  ghost predicate SafeAt(p: Plan, t: real) { Stock(p, t) >= 0.0 && !RunsOutAt(p, t) }

  ghost predicate SafeBefore(p: Plan, t: real) { forall s: real :: 0.0 <= s < t ==> SafeAt(p, s) }

  /** What the answer must be: the first instant that runs out, or None when every instant up to the horizon is safe. */
  ghost predicate IsProjection(p: Plan, answer: Option<real>) {
    match answer
    case None => SafeBefore(p, p.Reach()) && SafeAt(p, p.Reach())
    case Some(t) => 0.0 <= t <= p.Reach() && SafeBefore(p, t) && RunsOutAt(p, t)
  }

  // -- how the two totals move between events

  lemma {:induction false} DemandKeepsGrowing(rates: seq<real>, bucket: real, n: nat, s: real, t: real)
    requires n <= |rates| && s <= t && bucket > 0.0 && forall i :: 0 <= i < |rates| ==> rates[i] >= 0.0
    ensures DemandIn(rates, bucket, n, s) <= DemandIn(rates, bucket, n, t)
  {
    if n > 0 {
      DemandKeepsGrowing(rates, bucket, n - 1, s, t);
      TimesKeepsOrder(rates[n - 1], Clip(s - Start(bucket, n - 1), bucket), Clip(t - Start(bucket, n - 1), bucket));
    }
  }

  lemma TimesKeepsOrder(rate: real, a: real, b: real)
    requires rate >= 0.0
    ensures a <= b ==> Times(rate, a) <= Times(rate, b)
    ensures rate > 0.0 && a < b ==> Times(rate, a) < Times(rate, b)
    ensures Times(0.0, a) == 0.0 == Times(rate, 0.0)
  {
  }

  lemma TimesSplits(rate: real, a: real, b: real)
    ensures Times(rate, b) - Times(rate, a) == Times(rate, b - a)
  {
  }

  /** Before any bucket has begun nothing has been asked for. */
  lemma {:induction false} NoDemandAtStart(rates: seq<real>, bucket: real, n: nat)
    requires n <= |rates| && bucket > 0.0
    ensures DemandIn(rates, bucket, n, 0.0) == 0.0
  {
    if n > 0 {
      NoDemandAtStart(rates, bucket, n - 1);
      StartsInOrder(bucket, 0, n - 1);
      NextStart(bucket, 0);
    }
  }

  /** Inside bucket k, only that bucket's rate counts. */
  lemma {:induction false} DemandInsideBucket(rates: seq<real>, bucket: real, n: nat, k: nat, s: real, t: real)
    requires n <= |rates| && k < |rates| && bucket > 0.0
    requires Start(bucket, k) <= s <= t <= Start(bucket, k + 1)
    ensures DemandIn(rates, bucket, n, t) - DemandIn(rates, bucket, n, s) == if k < n then Times(rates[k], t - s) else 0.0
  {
    if n > 0 {
      DemandInsideBucket(rates, bucket, n - 1, k, s, t);
      var from := Start(bucket, n - 1);
      if n - 1 < k {
        StartsInOrder(bucket, n - 1, k);
      } else if n - 1 == k {
        NextStart(bucket, k);
        TimesSplits(rates[k], s - from, t - from);
      } else {
        StartsInOrder(bucket, k + 1, n - 1);
      }
    }
  }

  ghost predicate NoArrivalBetween(inbound: seq<InboundBatch>, s: real, t: real) {
    forall i :: 0 <= i < |inbound| ==> !(s < inbound[i].eta < t)
  }

  lemma {:induction false} ArrivalsBetween(inbound: seq<InboundBatch>, s: real, mid: real, t: real)
    requires s <= mid < t && NoArrivalBetween(inbound, s, t)
    ensures ArrivedBy(inbound, mid) == ArrivedBy(inbound, s)
    ensures ArrivedBy(inbound, t) == ArrivedBy(inbound, s) + ArrivingAt(inbound, t)
  {
    if inbound != [] { ArrivalsBetween(inbound[1..], s, mid, t); }
  }

  lemma {:induction false} ArrivalsAtStart(inbound: seq<InboundBatch>)
    requires forall i :: 0 <= i < |inbound| ==> inbound[i].Valid()
    ensures ArrivedBy(inbound, 0.0) == ArrivingAt(inbound, 0.0)
  {
    if inbound != [] { ArrivalsAtStart(inbound[1..]); }
  }

  // -- the events

  /** The starts of buckets 1, 2, ... that lie before the horizon. */
  function Boundaries(bucket: real, horizon: real, n: nat): (starts: seq<real>)
    requires bucket > 0.0
    ensures |starts| == 0 || |starts| < n
    ensures forall i :: 0 <= i < |starts| ==> starts[i] == Start(bucket, i + 1) < horizon
    ensures |starts| + 1 < n ==> Start(bucket, |starts| + 1) >= horizon
  {
    hide Start;
    if n < 2 then []
    else
      var starts := Boundaries(bucket, horizon, n - 1);
      var last := Start(bucket, n - 1);
      if last < horizon then
        assert |starts| + 1 == n - 1 by {
          if |starts| + 1 < n - 1 { StartsInOrder(bucket, |starts| + 1, n - 1); }
        }
        starts + [last]
      else
        assert |starts| + 1 == n - 1 ==> Start(bucket, |starts| + 1) == last;
        starts
  }

  predicate Increasing(s: seq<real>) { forall i, j :: 0 <= i < j < |s| ==> s[i] < s[j] }

  /** Where x would be inserted after its equals: everything to the left is at most x, everything from there on exceeds it. */
  function BisectRight(s: seq<real>, x: real): (k: nat)
    requires Increasing(s)
    ensures k <= |s|
    ensures forall i :: 0 <= i < k ==> s[i] <= x
    ensures forall i :: k <= i < |s| ==> x < s[i]
  {
    if s == [] || s[|s| - 1] <= x then |s| else BisectRight(s[..|s| - 1], x)
  }

  function EtasBy(inbound: seq<InboundBatch>, horizon: real): (etas: set<real>)
    ensures forall t :: t in etas <==> t <= horizon && ArrivesAt(inbound, t)
  {
    if inbound == [] then {}
    else
      var rest := EtasBy(inbound[1..], horizon);
      assert forall t :: ArrivesAt(inbound, t) <==> inbound[0].eta == t || ArrivesAt(inbound[1..], t);
      if inbound[0].eta <= horizon then {inbound[0].eta} + rest else rest
  }

  function Elements(s: seq<real>): (elements: set<real>)
    ensures forall x :: x in elements <==> x in s
  {
    if s == [] then {} else Elements(s[1..]) + {s[0]}
  }

  function EventTimes(p: Plan): set<real>
    requires p.Accepted()
  {
    {0.0, p.Reach()} + EtasBy(p.inbound, p.Reach()) + Elements(Boundaries(p.bucket, p.Reach(), |p.rates|))
  }

  /** The bucket whose rate is charged from time s to the next event. */
  function BucketAt(p: Plan, s: real): (k: nat)
    requires p.Accepted()
    ensures k < |p.rates|
  {
    var boundaries := Boundaries(p.bucket, p.Reach(), |p.rates|);
    BoundariesIncrease(p);
    var k := BisectRight(boundaries, s);
    if k < |p.rates| - 1 then k else |p.rates| - 1
  }

  lemma BoundariesIncrease(p: Plan)
    requires p.Accepted()
    ensures Increasing(Boundaries(p.bucket, p.Reach(), |p.rates|))
  {
    var b := Boundaries(p.bucket, p.Reach(), |p.rates|);
    forall i, j | 0 <= i < j < |b| ensures b[i] < b[j] { StartsInOrder(p.bucket, i + 1, j + 1); }
  }

  ghost predicate ConsecutiveEvents(p: Plan, s: real, t: real)
    requires p.Accepted()
  {
    0.0 <= s < t <= p.Reach() && forall e :: e in EventTimes(p) ==> !(s < e < t)
  }

  /** Between two consecutive events the charged bucket is the one the clock is in. */
  lemma {:induction false} StaysInBucket(p: Plan, s: real, t: real)
    requires p.Accepted() && ConsecutiveEvents(p, s, t)
    ensures Start(p.bucket, BucketAt(p, s)) <= s && t <= Start(p.bucket, BucketAt(p, s) + 1)
  {
    var b := Boundaries(p.bucket, p.Reach(), |p.rates|);
    BoundariesIncrease(p);
    var k := BisectRight(b, s);
    assert k == BucketAt(p, s);
    NextStart(p.bucket, 0);
    if k > 0 { assert b[k - 1] == Start(p.bucket, k); }
    if k < |b| {
      assert b[k] in EventTimes(p);
    } else if k + 1 == |p.rates| {
      assert p.Reach() <= Start(p.bucket, k + 1);
    } else {
      assert Start(p.bucket, k + 1) >= p.Reach();
    }
  }

  lemma {:induction false} NothingArrivesBetween(p: Plan, s: real, t: real)
    requires p.Accepted() && ConsecutiveEvents(p, s, t)
    ensures NoArrivalBetween(p.inbound, s, t)
  {
    forall i | 0 <= i < |p.inbound| ensures !(s < p.inbound[i].eta < t) {
      var eta := p.inbound[i].eta;
      assert ArrivesAt(p.inbound, eta);
      assert eta <= p.Reach() ==> eta in EventTimes(p);
    }
  }

  /** From an event to the next, stock falls in a straight line, and then takes in what arrives. */
  lemma {:induction false} StockBetween(p: Plan, s: real, mid: real, t: real)
    requires p.Accepted() && ConsecutiveEvents(p, s, t) && s <= mid < t
    ensures var rate := p.rates[BucketAt(p, s)];
            && rate >= 0.0
            && Demand(p, mid) == Demand(p, s) + Times(rate, mid - s)
            && Demand(p, t) == Demand(p, s) + Times(rate, t - s)
            && Stock(p, mid) == Stock(p, s) - Times(rate, mid - s)
            && Stock(p, t) == Stock(p, s) - Times(rate, t - s) + ArrivingAt(p.inbound, t) as real
  {
    StaysInBucket(p, s, t);
    NothingArrivesBetween(p, s, t);
    var k := BucketAt(p, s);
    DemandInsideBucket(p.rates, p.bucket, |p.rates|, k, s, mid);
    DemandInsideBucket(p.rates, p.bucket, |p.rates|, k, s, t);
    ArrivalsBetween(p.inbound, s, mid, t);
  }

  // -- one step of the pass

  /** What the pass knows after it has handled the event at time s. */
  ghost predicate Passed(p: Plan, s: real, inventory: real) {
    inventory == Stock(p, s) >= 0.0 && SafeBefore(p, s) && !DrainedAt(p, s)
  }

  lemma DemandMonotone(p: Plan, s: real, t: real)
    requires p.Accepted() && s <= t
    ensures Demand(p, s) <= Demand(p, t)
  {
    DemandKeepsGrowing(p.rates, p.bucket, |p.rates|, s, t);
  }

  /** When stock drawn on at a rate is used up. */
  function UsedUpAt(s: real, inventory: real, rate: real): real
    requires rate > 0.0
  {
    s + inventory / rate
  }

  /** The instant at which an interval's demand has used up the stock lies inside the interval. */
  lemma UsedUpInside(rate: real, minutes: real, inventory: real) returns (used: real)
    requires 0.0 <= inventory < Times(rate, minutes) && rate > 0.0
    ensures used == inventory / rate && Times(rate, used) == inventory && 0.0 <= used < minutes
  {
    used := inventory / rate;
    TimesKeepsOrder(rate, minutes, used);
    TimesKeepsOrder(rate, used, 0.0);
  }

  /** Once demand draws on the stock inside an interval it keeps ahead of that instant for good. */
  lemma {:induction false} DemandRunsAhead(p: Plan, s: real, t: real, out: real)
    requires p.Accepted() && ConsecutiveEvents(p, s, t) && s <= out < t && p.rates[BucketAt(p, s)] > 0.0
    ensures DemandGrowsAfter(p, out)
  {
    var rate := p.rates[BucketAt(p, s)];
    StockBetween(p, s, out, t);
    forall later: real | out < later <= p.Reach() ensures Demand(p, later) > Demand(p, out) {
      TimesKeepsOrder(rate, out - s, later - s);
      TimesKeepsOrder(rate, out - s, t - s);
      hide *;
      if later < t { StockBetween(p, s, later, t); } else { DemandMonotone(p, t, later); }
    }
  }

  /** The interval asks for more than there is: stock runs out inside it, at the computed instant and not before. */
  lemma {:induction false} RunsOutInside(p: Plan, s: real, t: real, inventory: real, rate: real, out: real)
    requires p.Accepted() && ConsecutiveEvents(p, s, t) && Passed(p, s, inventory)
    requires rate == p.rates[BucketAt(p, s)] && inventory < Times(rate, t - s)
    requires rate > 0.0 && out == UsedUpAt(s, inventory, rate)
    ensures IsProjection(p, Some(out))
  {
    var used := UsedUpInside(rate, t - s, inventory);
    assert s <= out < t && Times(rate, out - s) == inventory;
    hide Times;
    StockBetween(p, s, out, t);
    DemandRunsAhead(p, s, t, out);
    forall before: real | 0.0 <= before < out ensures SafeAt(p, before) {
      if s <= before { StaysPositive(p, s, t, out, before); }
    }
    hide Stock, DrainedAt, SafeAt, DemandGrowsAfter;
    assert RunsOutAt(p, out);
  }

  lemma {:induction false} StaysPositive(p: Plan, s: real, t: real, out: real, before: real)
    requires p.Accepted() && ConsecutiveEvents(p, s, t) && s <= before < out < t && p.rates[BucketAt(p, s)] > 0.0
    requires Stock(p, s) == Times(p.rates[BucketAt(p, s)], out - s)
    ensures SafeAt(p, before)
  {
    StockBetween(p, s, before, t);
    TimesKeepsOrder(p.rates[BucketAt(p, s)], before - s, out - s);
  }

  /** The interval can be served: no instant of it runs out. */
  lemma {:induction false} SafeInside(p: Plan, s: real, t: real, inventory: real, rate: real, mid: real)
    requires p.Accepted() && ConsecutiveEvents(p, s, t) && Passed(p, s, inventory)
    requires rate == p.rates[BucketAt(p, s)] && inventory >= Times(rate, t - s)
    requires s <= mid < t
    ensures SafeAt(p, mid)
  {
    StockBetween(p, s, mid, t);
    TimesKeepsOrder(rate, mid - s, t - s);
    if Stock(p, mid) == 0.0 {
      assert rate == 0.0;
      assert Times(rate, mid - s) == 0.0 && Times(rate, t - s) == 0.0;
      assert Demand(p, t) == Demand(p, mid) == Demand(p, s);
      assert !DemandGrowsAfter(p, mid);
      assert s < mid ==> !DemandGrewUntil(p, mid);
    }
  }

  /** At the next event the stock was drained exactly when the whole of it was consumed and nothing arrives. */
  lemma {:induction false} DrainedExactly(p: Plan, s: real, t: real, inventory: real, rate: real)
    requires p.Accepted() && p.Valid() && ConsecutiveEvents(p, s, t) && Passed(p, s, inventory)
    requires rate == p.rates[BucketAt(p, s)] && inventory >= Times(rate, t - s)
    ensures DrainedAt(p, t) <==> Times(rate, t - s) > 0.0 && inventory == Times(rate, t - s) && !ArrivesAt(p.inbound, t)
    ensures Stock(p, t) == inventory - Times(rate, t - s) + ArrivingAt(p.inbound, t) as real
  {
    StockBetween(p, s, s, t);
    TimesKeepsOrder(rate, 0.0, t - s);
    if Times(rate, t - s) > 0.0 {
      forall before: real | 0.0 <= before < t ensures Demand(p, before) < Demand(p, t) {
        if s <= before {
          StockBetween(p, s, before, t);
          TimesKeepsOrder(rate, before - s, t - s);
        } else {
          DemandMonotone(p, before, s);
        }
      }
    } else {
      assert !(Demand(p, s) < Demand(p, t));
    }
  }

  lemma {:induction false} AtTimeZero(p: Plan)
    requires p.Accepted() && p.Valid()
    ensures Passed(p, 0.0, p.initial + ArrivingAt(p.inbound, 0.0) as real)
  {
    NoDemandAtStart(p.rates, p.bucket, |p.rates|);
    ArrivalsAtStart(p.inbound);
  }

  lemma NextEvent(p: Plan, events: seq<real>, i: nat)
    requires p.Accepted() && p.Valid() && events == Sorted(EventTimes(p)) && i < |events|
    ensures events[0] == 0.0 && events[|events| - 1] == p.Reach()
    ensures i > 0 ==> ConsecutiveEvents(p, events[i - 1], events[i])
  {
    EventsInRange(p);
    assert 0.0 in EventTimes(p) && p.Reach() in EventTimes(p);
    hide EventTimes;
    Ends(events, 0.0, p.Reach());
    if i > 0 { Neighbours(events, i); }
  }

  /** In an increasing sequence the smallest element comes first and the largest last. */
  lemma Ends(s: seq<real>, low: real, high: real)
    requires Increasing(s) && low in s && high in s && forall x :: x in s ==> low <= x <= high
    ensures s[0] == low && s[|s| - 1] == high
  {
    var i :| 0 <= i < |s| && s[i] == low;
    var j :| 0 <= j < |s| && s[j] == high;
    assert s[0] in s && s[|s| - 1] in s;
  }

  lemma Neighbours(s: seq<real>, i: nat)
    requires Increasing(s) && 0 < i < |s|
    ensures s[i - 1] < s[i] && s[i - 1] in s && s[i] in s
    ensures forall x :: x in s ==> !(s[i - 1] < x < s[i])
  {
    forall x | x in s ensures !(s[i - 1] < x < s[i]) {
      var j :| 0 <= j < |s| && s[j] == x;
      assert j <= i - 1 || i <= j;
    }
  }

  lemma EventsInRange(p: Plan)
    requires p.Accepted() && p.Valid()
    ensures forall e :: e in EventTimes(p) ==> 0.0 <= e <= p.Reach()
  {
    forall i: nat | i <= |p.rates| ensures 0.0 <= Start(p.bucket, i) { StartsInOrder(p.bucket, 0, i); NextStart(p.bucket, 0); }
    StartsInOrder(p.bucket, 1, |p.rates|);
    NextStart(p.bucket, 0);
    forall e | e in EventTimes(p) ensures 0.0 <= e <= p.Reach() {
      if ArrivesAt(p.inbound, e) { var i :| 0 <= i < |p.inbound| && p.inbound[i].eta == e; }
    }
  }

  /** The interval up to the next event is served: what holds there before the event's outcome is known. */
  lemma {:induction false} Served(p: Plan, s: real, t: real, inventory: real, rate: real)
    requires p.Accepted() && p.Valid() && ConsecutiveEvents(p, s, t) && Passed(p, s, inventory)
    requires rate == p.rates[BucketAt(p, s)] && inventory >= Times(rate, t - s)
    ensures SafeBefore(p, t)
    ensures DrainedAt(p, t) <==> Times(rate, t - s) > 0.0 && inventory == Times(rate, t - s) && !ArrivesAt(p.inbound, t)
    ensures Stock(p, t) == inventory - Times(rate, t - s) + ArrivingAt(p.inbound, t) as real >= 0.0
  {
    DrainedExactly(p, s, t, inventory, rate);
    hide DrainedAt, Stock, SafeAt, Times, ArrivingAt;
    forall mid: real | 0.0 <= mid < t ensures SafeAt(p, mid) {
      if s <= mid { SafeInside(p, s, t, inventory, rate, mid); }
    }
  }

  lemma EndOfPass(p: Plan, events: seq<real>, inventory: real)
    requires p.Accepted() && p.Valid() && events == Sorted(EventTimes(p)) && |events| > 0
    requires Passed(p, events[|events| - 1], inventory)
    ensures IsProjection(p, None)
  {
    NextEvent(p, events, |events| - 1);
    hide Stock, DrainedAt, EventTimes;
  }

  lemma DrainedIsProjection(p: Plan, t: real)
    requires 0.0 <= t <= p.Reach() && SafeBefore(p, t) && DrainedAt(p, t)
    ensures IsProjection(p, Some(t))
  {
    hide SafeAt, DrainedAt;
  }

  lemma NowPassed(p: Plan, t: real, inventory: real)
    requires SafeBefore(p, t) && !DrainedAt(p, t) && inventory == Stock(p, t) >= 0.0
    ensures Passed(p, t, inventory)
  {
  }

  lemma PassedFacts(p: Plan, s: real, inventory: real)
    requires Passed(p, s, inventory)
    ensures inventory >= 0.0
  {
  }

  /** The pass over the events, with the errors it raises first. */
  method ProjectStockout(p: Plan) returns (r: Result<Option<real>, PlanError>)
    requires p.Valid()
    ensures r.Ok? <==> p.Accepted()
    ensures r.Ok? ==> IsProjection(p, r.value)
    ensures r.Err? ==> r.error == if !p.NumbersAreSane() then BadNumber else if p.rates == [] then NoDemandRates else HorizonBeyondSchedule
  {
    if !p.NumbersAreSane() { return Err(BadNumber); }
    if p.rates == [] { return Err(NoDemandRates); }
    if !p.HorizonIsCovered() { return Err(HorizonBeyondSchedule); }
    SomeEvents(p);
    var answer := Pass(p, Sorted(EventTimes(p)));
    return Ok(answer);
  }

  method Pass(p: Plan, events: seq<real>) returns (answer: Option<real>)
    requires p.Valid() && p.Accepted() && events == Sorted(EventTimes(p)) && |events| > 0
    ensures IsProjection(p, answer)
  {
    hide *;
    var inventory, previous := p.initial, 0.0;
    for i := 0 to |events|
      invariant i == 0 ==> previous == 0.0 && inventory == p.initial
      invariant i > 0 ==> previous == events[i - 1] && Passed(p, previous, inventory)
    {
      var eventTime := events[i];
      EventAt(p, events, i);
      var interval := if eventTime - previous > 0.0 then eventTime - previous else 0.0;
      var rate := p.rates[BucketAt(p, previous)];
      var consumption := Times(rate, interval);
      var exhaustedExactly := consumption > 0.0 && inventory == consumption;
      if i == 0 { NothingYet(p, rate); } else { PassedFacts(p, previous, inventory); }
      if inventory < consumption {
        RateIsSane(p, previous);
        TimesKeepsOrder(rate, interval, 0.0);
        RunsOutInside(p, previous, eventTime, inventory, rate, UsedUpAt(previous, inventory, rate));
        return Some(UsedUpAt(previous, inventory, rate));
      }
      if i > 0 { Served(p, previous, eventTime, inventory, rate); }
      inventory := inventory - consumption;
      inventory := inventory + ArrivingAt(p.inbound, eventTime) as real;
      if exhaustedExactly && !ArrivesAt(p.inbound, eventTime) {
        DrainedIsProjection(p, eventTime);
        return Some(eventTime);
      }
      if i > 0 { NowPassed(p, eventTime, inventory); }
      previous := eventTime;
    }
    EndOfPass(p, events, inventory);
    return None;
  }

  lemma SomeEvents(p: Plan)
    requires p.Valid() && p.Accepted()
    ensures |Sorted(EventTimes(p))| > 0
  {
    assert 0.0 in Sorted(EventTimes(p));
  }

  lemma {:induction false} EventAt(p: Plan, events: seq<real>, i: nat)
    requires p.Valid() && p.Accepted() && events == Sorted(EventTimes(p)) && i < |events|
    ensures i == 0 ==> events[i] == 0.0
    ensures i > 0 ==> ConsecutiveEvents(p, events[i - 1], events[i]) && events[i - 1] < events[i]
    ensures 0.0 <= events[i] <= p.Reach()
    ensures |p.rates| > 0
  {
    NextEvent(p, events, i);
    EventsInRange(p);
    assert events[i] in EventTimes(p);
    hide EventTimes;
  }

  /** The event at time zero: no time has passed, and what arrives then is taken in. */
  lemma NothingYet(p: Plan, rate: real)
    requires p.Valid() && p.Accepted()
    ensures p.initial >= 0.0 && Times(rate, 0.0) == 0.0
    ensures Passed(p, 0.0, p.initial + ArrivingAt(p.inbound, 0.0) as real)
  {
    AtTimeZero(p);
    TimesKeepsOrder(0.0, 0.0, 0.0);
  }

  lemma RateIsSane(p: Plan, s: real)
    requires p.Accepted()
    ensures p.rates[BucketAt(p, s)] >= 0.0
  {
  }

  // -- what the answer means

  /** An instant that is not safe is at or after the answer. */
  lemma AnswerIsFirst(p: Plan, answer: Option<real>, t: real)
    requires IsProjection(p, answer) && 0.0 <= t <= p.Reach() && !SafeAt(p, t)
    ensures answer.Some? && answer.value <= t
  {
  }

  /** The answer is fully determined by the plan. */
  lemma {:induction false} ProjectionIsUnique(p: Plan, a: Option<real>, b: Option<real>)
    requires IsProjection(p, a) && IsProjection(p, b)
    ensures a == b
  {
    if a.Some? { AnswerIsFirst(p, b, a.value); }
    if b.Some? { AnswerIsFirst(p, a, b.value); }
  }

  /** All demand up to the answer is met; None says that it is met up to the horizon. */
  lemma DemandIsMetUntil(p: Plan, answer: Option<real>, t: real)
    requires IsProjection(p, answer) && 0.0 <= t <= if answer.Some? then answer.value else p.Reach()
    ensures Demand(p, t) <= p.initial + ArrivedBy(p.inbound, t) as real
  {
    assert SafeAt(p, t) || RunsOutAt(p, t);
  }

  /** Right after the answer demand goes unmet, unless the answer is an exact drain that no delivery meets. */
  lemma {:induction false} DemandIsMissedAfter(p: Plan, t: real, later: real)
    requires p.Accepted() && IsProjection(p, Some(t)) && !DrainedAt(p, t)
    requires t < later <= p.Reach() && forall i :: 0 <= i < |p.inbound| ==> !(t < p.inbound[i].eta <= later)
    ensures Demand(p, later) > p.initial + ArrivedBy(p.inbound, later) as real
  {
    assert RunsOutAt(p, t);
    NoneArrive(p.inbound, t, later);
  }

  lemma {:induction false} NoneArrive(inbound: seq<InboundBatch>, s: real, t: real)
    requires s <= t && forall i :: 0 <= i < |inbound| ==> !(s < inbound[i].eta <= t)
    ensures ArrivedBy(inbound, s) == ArrivedBy(inbound, t)
  {
    if inbound != [] { NoneArrive(inbound[1..], s, t); }
  }

  lemma {:induction false} MoreArrive(inbound: seq<InboundBatch>, extra: seq<InboundBatch>, t: real)
    ensures ArrivedBy(inbound + extra, t) == ArrivedBy(inbound, t) + ArrivedBy(extra, t)
    ensures ArrivedBy(extra, t) >= 0
  {
    if inbound != [] {
      assert (inbound + extra)[1..] == inbound[1..] + extra;
      MoreArrive(inbound[1..], extra, t);
    } else {
      assert inbound + extra == extra;
      if extra != [] { MoreArrive([], extra[1..], t); assert [] + extra[1..] == extra[1..]; }
    }
  }

  predicate NoEarlier(a: Option<real>, b: Option<real>) { a.None? || (b.Some? && b.value <= a.value) }

  /** More committed deliveries, or more balls to begin with, never bring a stock-out in or forward. */
  lemma {:induction false} MoreSupplyLastsLonger(p: Plan, initial: real, extra: seq<InboundBatch>, before: Option<real>, after: Option<real>)
    requires p.Accepted() && initial >= p.initial
    requires IsProjection(p, before) && IsProjection(p.(initial := initial, inbound := p.inbound + extra), after)
    ensures NoEarlier(after, before)
  {
    var q := p.(initial := initial, inbound := p.inbound + extra);
    if after.Some? {
      var t := after.value;
      MoreArrive(p.inbound, extra, t);
      assert Stock(p, t) <= Stock(q, t) == 0.0;
      SameDemand(p, q, t);
      ArrivesInMore(p.inbound, extra, t);
      assert !SafeAt(p, t);
      AnswerIsFirst(p, before, t);
    }
  }

  lemma SameDemand(p: Plan, q: Plan, t: real)
    requires q == p.(initial := q.initial, inbound := q.inbound)
    ensures Demand(p, t) == Demand(q, t)
    ensures DemandGrowsAfter(p, t) <==> DemandGrowsAfter(q, t)
    ensures DemandGrewUntil(p, t) <==> DemandGrewUntil(q, t)
  {
    assert forall s: real :: Demand(p, s) == Demand(q, s);
  }

  lemma ArrivesInMore(inbound: seq<InboundBatch>, extra: seq<InboundBatch>, t: real)
    ensures ArrivesAt(inbound, t) ==> ArrivesAt(inbound + extra, t)
  {
    if ArrivesAt(inbound, t) {
      var i :| 0 <= i < |inbound| && inbound[i].eta == t;
      assert (inbound + extra)[i].eta == t;
    }
  }
}
