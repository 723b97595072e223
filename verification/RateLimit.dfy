/** Buckets that keep only the instant they would be full again, and the limiter
    combining several of them all-or-nothing (utils/ratelimit/ratelimit.go).
    Instants and durations are integers; ZERO_TIME is the zero time of a new bucket. */
module RateLimit {

  const ZERO_TIME := 0

  function Max(a: int, b: int): int { if a >= b then a else b }

  function Min(a: int, b: int): int { if a <= b then a else b }

  datatype Limit = Limit(count: int, per: int) {
    predicate Valid() { count > 0 && per > 0 }
  }

  datatype Bucket = Bucket(interval: int, per: int, fullAt: int, latest: int) {
    function At(now: int): int { Max(now, latest) }

    function After(at: int, n: nat): int { Max(fullAt, at) + n * interval }

    function Wait(at: int, n: nat): int { Max(0, After(at, n) - at - per) }

    predicate Full(now: int) { fullAt <= now }

    function Seen(now: int): Bucket { this.(latest := At(now)) }

    function Taken(now: int, n: nat): Bucket { this.(latest := At(now), fullAt := After(At(now), n)) }

    function Recorded(now: int): Bucket {
      this.(latest := At(now), fullAt := Min(After(At(now), 1), At(now) + per))
    }

    /** What every reachable bucket satisfies: it never owes more than per. */
    predicate Sound() { 0 <= interval <= per && fullAt <= latest + per }
  }

  function NewBucket(limit: Limit): (b: Bucket)
    requires limit.Valid()
    ensures b.Sound()
  {
    IntervalFits(limit);
    Bucket(limit.per / limit.count, limit.per, ZERO_TIME, ZERO_TIME)
  }

  /** The truncated interval: count of them never exceed per, one more each would. */
  lemma IntervalFits(limit: Limit)
    requires limit.Valid()
    ensures 0 <= limit.per / limit.count <= limit.per
    ensures limit.count * (limit.per / limit.count) <= limit.per
    ensures limit.per < limit.count * (limit.per / limit.count) + limit.count
    ensures limit.per / limit.count == 0 <==> limit.count > limit.per
  {
    DivisionFits(limit.per, limit.count);
  }

  lemma DivisionFits(a: int, c: int)
    requires a > 0 && c > 0
    ensures 0 <= a / c <= a && c * (a / c) <= a < c * (a / c) + c
    ensures a / c == 0 <==> c > a
  {
    var q := a / c;
    assert a == c * q + a % c;
    if q < 0 {
      AtLeast(c, 1, -q);
    } else if q > 0 {
      AtLeast(c, 1, q);
      AtLeast(q, 1, c);
    }
  }

  lemma AtLeast(a: int, b: int, c: int)
    requires a >= b && c >= 0
    ensures a * c >= b * c
  {
  }

  predicate AllValid(limits: seq<Limit>) { forall i :: 0 <= i < |limits| ==> limits[i].Valid() }

  function Fresh(limits: seq<Limit>): (bs: seq<Bucket>)
    requires AllValid(limits)
    ensures |bs| == |limits| && AllSound(bs)
  {
    seq(|limits|, i requires 0 <= i < |limits| => NewBucket(limits[i]))
  }

  predicate AllSound(bs: seq<Bucket>) { forall i :: 0 <= i < |bs| ==> bs[i].Sound() }

  // --- What a limiter decides, as functions of its buckets ---

  datatype Verdict = Verdict(allowed: bool, retryAfter: int)

  /** The longest wait any bucket asks for. */
  function RetryAfter(bs: seq<Bucket>, now: int, n: nat): int {
    if |bs| == 0 then 0
    else var b := bs[|bs| - 1]; Max(RetryAfter(bs[..|bs| - 1], now, n), b.Wait(b.At(now), n))
  }

  function AllSeen(bs: seq<Bucket>, now: int): seq<Bucket> {
    seq(|bs|, i requires 0 <= i < |bs| => bs[i].Seen(now))
  }

  function AllTaken(bs: seq<Bucket>, now: int, n: nat): seq<Bucket> {
    seq(|bs|, i requires 0 <= i < |bs| => bs[i].Taken(now, n))
  }

  function AllRecorded(bs: seq<Bucket>, now: int): seq<Bucket> {
    seq(|bs|, i requires 0 <= i < |bs| => bs[i].Recorded(now))
  }

  function AfterAllow(bs: seq<Bucket>, now: int, n: nat): seq<Bucket> {
    if RetryAfter(bs, now, n) > 0 then AllSeen(bs, now) else AllTaken(bs, now, n)
  }

  function Decision(bs: seq<Bucket>, now: int, n: nat): Verdict {
    var wait := RetryAfter(bs, now, n);
    Verdict(wait <= 0, Max(0, wait))
  }

  /** The wait answered is the longest any bucket asks for, and none exactly when allowed. */
  lemma {:induction false} RetryAfterIsTheLongest(bs: seq<Bucket>, now: int, n: nat)
    ensures RetryAfter(bs, now, n) >= 0 && Decision(bs, now, n) == Verdict(RetryAfter(bs, now, n) == 0, RetryAfter(bs, now, n))
    ensures forall i :: 0 <= i < |bs| ==> bs[i].Wait(bs[i].At(now), n) <= RetryAfter(bs, now, n)
    ensures RetryAfter(bs, now, n) == 0
         || exists i :: 0 <= i < |bs| && bs[i].Wait(bs[i].At(now), n) == RetryAfter(bs, now, n)
  {
    if |bs| > 0 {
      RetryAfterIsTheLongest(bs[..|bs| - 1], now, n);
    }
  }

  /** Limiter: its buckets are updated in place, each method under its mutex. */
  class Limiter {
    const buckets: array<Bucket>

    constructor (limits: seq<Limit>)
      requires AllValid(limits)
      ensures fresh(buckets) && buckets[..] == Fresh(limits)
    {
      var made := new Bucket[|limits|](i requires 0 <= i < |limits| => NewBucket(limits[i]));
      buckets := made;
    }

    method AllowN(now: int, n: nat) returns (v: Verdict)
      modifies buckets
      ensures v == Decision(old(buckets[..]), now, n)
      ensures buckets[..] == AfterAllow(old(buckets[..]), now, n)
    {
      v := AllowIn(buckets, now, n);
    }

    method Record(now: int)
      modifies buckets
      ensures buckets[..] == AllRecorded(old(buckets[..]), now)
    {
      for i := 0 to buckets.Length
        invariant forall k :: 0 <= k < i ==> buckets[k] == old(buckets[k]).Recorded(now)
        invariant forall k :: i <= k < buckets.Length ==> buckets[k] == old(buckets[k])
      {
        var at := buckets[i].At(now);
        buckets[i] := buckets[i].(latest := at);
        buckets[i] := buckets[i].(fullAt := buckets[i].After(at, 1));
        var limit := at + buckets[i].per;
        if buckets[i].fullAt > limit {
          buckets[i] := buckets[i].(fullAt := limit);
        }
      }
    }
  }

  /** allow: a first pass asks every bucket, a second one takes from all of them. */
  method AllowIn(buckets: array<Bucket>, now: int, n: nat) returns (v: Verdict)
    modifies buckets
    ensures v == Decision(old(buckets[..]), now, n)
    ensures buckets[..] == AfterAllow(old(buckets[..]), now, n)
  {
    ghost var was := buckets[..];
    var retryAfter := 0;
    for i := 0 to buckets.Length
      invariant retryAfter == RetryAfter(was[..i], now, n) >= 0
      invariant forall k :: 0 <= k < i ==> buckets[k] == was[k].Seen(now)
      invariant forall k :: i <= k < buckets.Length ==> buckets[k] == was[k]
    {
      var at := buckets[i].At(now);
      buckets[i] := buckets[i].(latest := at);
      assert was[..i + 1][..i] == was[..i];
      retryAfter := Max(retryAfter, buckets[i].Wait(at, n));
    }
    assert was[..buckets.Length] == was;
    if retryAfter > 0 {
      return Verdict(false, retryAfter);
    }
    for i := 0 to buckets.Length
      invariant forall k :: 0 <= k < i ==> buckets[k] == was[k].Taken(now, n)
      invariant forall k :: i <= k < buckets.Length ==> buckets[k] == was[k].Seen(now)
    {
      var at := buckets[i].At(now);
      buckets[i] := buckets[i].(latest := at);
      buckets[i] := buckets[i].(fullAt := buckets[i].After(at, n));
    }
    return Verdict(true, 0);
  }

  // --- Runs of a limiter ---

  datatype Op = Take(now: int, n: nat) | Note(now: int)

  function AfterOp(bs: seq<Bucket>, op: Op): seq<Bucket> {
    match op
    case Take(now, n) => AfterAllow(bs, now, n)
    case Note(now) => AllRecorded(bs, now)
  }

  function OpAllowed(bs: seq<Bucket>, op: Op): bool { op.Take? && Decision(bs, op.now, op.n).allowed }

  function AfterRun(bs: seq<Bucket>, ops: seq<Op>): (r: seq<Bucket>)
    ensures |r| == |bs|
    decreases ops
  {
    if ops == [] then bs else AfterRun(AfterOp(bs, ops[0]), ops[1..])
  }

  /** How many events AllowN let through; Record's events are never refused and not counted. */
  function Admitted(bs: seq<Bucket>, ops: seq<Op>): nat
    decreases ops
  {
    if ops == [] then 0
    else (if OpAllowed(bs, ops[0]) then ops[0].n else 0) + Admitted(AfterOp(bs, ops[0]), ops[1..])
  }

  /** The clock as a bucket takes it: the latest now seen, never before the zero time. */
  function Effective(ops: seq<Op>): int {
    if ops == [] then ZERO_TIME else Max(Effective(ops[..|ops| - 1]), ops[|ops| - 1].now)
  }

  function AdmittedBetween(limits: seq<Limit>, ops: seq<Op>, from: nat, to: nat): nat
    requires AllValid(limits) && from <= to <= |ops|
  {
    Admitted(AfterRun(Fresh(limits), ops[..from]), ops[from..to])
  }

  lemma StepFacts(bs: seq<Bucket>, op: Op, i: nat)
    requires i < |bs| && bs[i].Sound()
    ensures |AfterOp(bs, op)| == |bs|
    ensures var b := AfterOp(bs, op)[i];
            b.Sound() && b.interval == bs[i].interval && b.per == bs[i].per
            && b.latest == Max(op.now, bs[i].latest) && b.fullAt >= bs[i].fullAt
            && (OpAllowed(bs, op) ==> b.fullAt == Max(bs[i].fullAt, b.latest) + op.n * b.interval)
  {
    if op.Take? {
      RetryAfterIsTheLongest(bs, op.now, op.n);
      assert bs[i].Wait(bs[i].At(op.now), op.n) <= RetryAfter(bs, op.now, op.n);
    }
  }

  /** b1 is b0 later on, with at least n events taken from start on. */
  predicate Charged(b0: Bucket, b1: Bucket, start: int, n: nat) {
    && b1.Sound() && b1.interval == b0.interval && b1.per == b0.per
    && b1.fullAt >= b0.fullAt && b1.latest >= b0.latest
    && (n > 0 ==> b1.fullAt >= Max(b0.fullAt, Max(b0.latest, start)) + n * b0.interval)
  }

  lemma ChargedTwice(b0: Bucket, b1: Bucket, b2: Bucket, start: int, later: int, n: nat, m: nat)
    requires Charged(b0, b1, start, n) && Charged(b1, b2, later, m)
    requires b1.latest >= start
    ensures Charged(b0, b2, start, n + m)
  {
    assert (n + m) * b0.interval == n * b0.interval + m * b0.interval;
  }

  function StartOf(ops: seq<Op>): int { if ops == [] then ZERO_TIME else ops[0].now }

  lemma StepCharges(bs: seq<Bucket>, op: Op, i: nat)
    requires i < |bs| && bs[i].Sound()
    ensures |AfterOp(bs, op)| == |bs|
    ensures Charged(bs[i], AfterOp(bs, op)[i], op.now, if OpAllowed(bs, op) then op.n else 0)
    ensures AfterOp(bs, op)[i].latest >= op.now
  {
    StepFacts(bs, op, i);
  }

  lemma {:induction false} RunFacts(bs: seq<Bucket>, ops: seq<Op>, i: nat)
    requires i < |bs| && bs[i].Sound()
    ensures Charged(bs[i], AfterRun(bs, ops)[i], StartOf(ops), Admitted(bs, ops))
    decreases ops
  {
    if ops != [] {
      var next := AfterOp(bs, ops[0]);
      StepCharges(bs, ops[0], i);
      RunFacts(next, ops[1..], i);
      ChargedTwice(bs[i], next[i], AfterRun(next, ops[1..])[i], ops[0].now, StartOf(ops[1..]),
                   if OpAllowed(bs, ops[0]) then ops[0].n else 0, Admitted(next, ops[1..]));
    }
  }

  lemma {:induction false} RunConcat(bs: seq<Bucket>, a: seq<Op>, b: seq<Op>)
    ensures AfterRun(bs, a + b) == AfterRun(AfterRun(bs, a), b)
    decreases a
  {
    if a == [] {
      assert a + b == b;
    } else {
      assert (a + b)[1..] == a[1..] + b;
      RunConcat(AfterOp(bs, a[0]), a[1..], b);
    }
  }

  lemma {:induction false} LatestIsEffective(limits: seq<Limit>, ops: seq<Op>, i: nat)
    requires AllValid(limits) && i < |limits|
    ensures AfterRun(Fresh(limits), ops)[i].latest == Effective(ops)
  {
    if ops != [] {
      var init, last := ops[..|ops| - 1], ops[|ops| - 1];
      LatestIsEffective(limits, init, i);
      assert ops == init + [last];
      RunConcat(Fresh(limits), init, [last]);
      RunFacts(Fresh(limits), init, i);
      var bs := AfterRun(Fresh(limits), init);
      StepFacts(bs, last, i);
      assert AfterRun(bs, [last]) == AfterRun(AfterOp(bs, last), []);
    }
  }

  /** The bound the code gives, for every limit and every stretch of every run, even
      with the clock going backwards: what is admitted between two effective times
      costs, at per / count each, at most per plus the time between them. */
  lemma AdmittedIsBounded(limits: seq<Limit>, ops: seq<Op>, from: nat, to: nat, i: nat)
    requires AllValid(limits) && i < |limits| && from < to <= |ops|
    ensures AdmittedBetween(limits, ops, from, to) * (limits[i].per / limits[i].count)
         <= limits[i].per + Effective(ops[..to]) - Effective(ops[..from + 1])
  {
    var start := AfterRun(Fresh(limits), ops[..from]);
    var window := ops[from..to];
    var end := AfterRun(start, window);
    RunFacts(Fresh(limits), ops[..from], i);
    LatestIsEffective(limits, ops[..from], i);
    RunFacts(start, window, i);
    assert end[i].latest == Effective(ops[..to]) by {
      assert ops[..to] == ops[..from] + window;
      RunConcat(Fresh(limits), ops[..from], window);
      LatestIsEffective(limits, ops[..to], i);
    }
    assert Effective(ops[..from + 1]) == Max(start[i].latest, window[0].now) by {
      assert ops[..from + 1][..from] == ops[..from];
    }
    EffectiveGrows(ops, from + 1, to);
    ChargeFits(start[i], end[i], window[0].now, Admitted(start, window));
  }

  lemma ChargeFits(b0: Bucket, b1: Bucket, start: int, n: nat)
    requires Charged(b0, b1, start, n) && b0.Sound() && Max(b0.latest, start) <= b1.latest
    ensures n * b0.interval <= b0.per + b1.latest - Max(b0.latest, start)
  {
  }

  lemma {:induction false} EffectiveGrows(ops: seq<Op>, a: nat, b: nat)
    requires a <= b <= |ops|
    ensures Effective(ops[..a]) <= Effective(ops[..b])
  {
    if a < b {
      EffectiveGrows(ops, a, b - 1);
      assert ops[..b][..b - 1] == ops[..b - 1];
    }
  }

  /** What the comment on Limit promises: at most count events within any per. */
  ghost predicate AtMostCountWithinPer(limit: Limit)
    requires limit.Valid()
  {
    forall ops: seq<Op>, from: nat, to: nat ::
      from < to <= |ops| && Effective(ops[..to]) - Effective(ops[..from + 1]) < limit.per
      ==> AdmittedBetween([limit], ops, from, to) <= limit.count
  }

  /** The code meets it exactly for "one every per": a burst of count followed by one
      refilled event already breaks it for any larger count. */
  lemma CommentHoldsIffCountIsOne(limit: Limit)
    requires limit.Valid()
    ensures AtMostCountWithinPer(limit) <==> limit.count == 1
  {
    IntervalFits(limit);
    if limit.count == 1 {
      forall ops: seq<Op>, from: nat, to: nat |
        from < to <= |ops| && Effective(ops[..to]) - Effective(ops[..from + 1]) < limit.per
        ensures AdmittedBetween([limit], ops, from, to) <= limit.count
      {
        AdmittedIsBounded([limit], ops, from, to, 0);
        AtMostOne(AdmittedBetween([limit], ops, from, to), limit.per);
      }
    } else {
      BurstThenOneMore(limit);
    }
  }

  lemma AtMostOne(n: nat, per: int)
    requires 0 < per && n * per < 2 * per
    ensures n <= 1
  {
  }

  lemma TwoIntervalsFit(limit: Limit)
    requires limit.Valid() && limit.count >= 2
    ensures var i := limit.per / limit.count; 0 <= i < limit.per && i <= limit.count * i <= limit.per
  {
    IntervalFits(limit);
    AtLeast(limit.count, 2, limit.per / limit.count);
  }

  /** A bucket refilled by one interval since its last take lets one event through. */
  lemma RefilledTakesOne(b: Bucket, i: int)
    requires 0 <= i == b.interval <= b.fullAt <= b.per && b.latest == 0
    ensures OpAllowed([b], Take(i, 1)) && b.At(i) == i
  {
    assert RetryAfter([b], i, 1) == Max(RetryAfter([], i, 1), b.Wait(b.At(i), 1));
  }

  lemma TwoTakesAdmit(b: Bucket, n: nat, i: int)
    requires OpAllowed([b], Take(0, n)) && OpAllowed(AfterOp([b], Take(0, n)), Take(i, 1))
    ensures Admitted([b], [Take(0, n), Take(i, 1)]) == n + 1
  {
    var ops := [Take(0, n), Take(i, 1)];
    assert ops[1..] == [Take(i, 1)] && ops[1..][1..] == [];
    var next := AfterOp([b], ops[0]);
    assert Admitted(next, ops[1..]) == 1 + Admitted(AfterOp(next, ops[1]), []);
  }

  lemma EffectiveOfTwo(n: nat, i: int)
    requires i >= 0
    ensures var ops := [Take(0, n), Take(i, 1)]; Effective(ops[..1]) == 0 && Effective(ops[..2]) == i
  {
    var ops := [Take(0, n), Take(i, 1)];
    assert ops[..1] == [ops[0]] && [ops[0]][..0] == [];
    assert ops[..2] == ops && ops[..2][..1] == [ops[0]];
    assert Effective([ops[0]]) == Max(Effective([]), 0);
  }

  lemma BurstThenOneMore(limit: Limit)
    requires limit.Valid() && limit.count >= 2
    ensures !AtMostCountWithinPer(limit)
  {
    TwoIntervalsFit(limit);
    var i, b := limit.per / limit.count, NewBucket(limit);
    var ops := [Take(0, limit.count), Take(i, 1)];
    assert Fresh([limit]) == [b];
    BurstIffItFits(limit, 0, limit.count);
    assert AfterOp([b], ops[0]) == [b.Taken(0, limit.count)];
    RefilledTakesOne(b.Taken(0, limit.count), i);
    TwoTakesAdmit(b, limit.count, i);
    EffectiveOfTwo(limit.count, i);
    assert ops[..0] == [] && ops[0..2] == ops;
    assert AdmittedBetween([limit], ops, 0, 2) == limit.count + 1;
  }

  /** A limiter never used lets n events through at once exactly when their
      intervals fit in per, which count events always do. */
  lemma BurstIffItFits(limit: Limit, now: int, n: nat)
    requires limit.Valid()
    ensures Decision(Fresh([limit]), now, n).allowed <==> n * (limit.per / limit.count) <= limit.per
    ensures n <= limit.count ==> Decision(Fresh([limit]), now, n).allowed
  {
    IntervalFits(limit);
    var b := NewBucket(limit);
    assert Fresh([limit]) == [b];
    assert RetryAfter([b], now, n) == Max(RetryAfter([], now, n), b.Wait(b.At(now), n));
    if n <= limit.count { assert n * b.interval <= limit.count * b.interval; }
  }

  /** A limit refuses something exactly when it asks for at most one event per unit of time. */
  lemma LimitsSomethingIffCountFitsPer(limit: Limit)
    requires limit.Valid()
    ensures (exists now: int, n: nat :: !Decision(Fresh([limit]), now, n).allowed) <==> limit.count <= limit.per
  {
    IntervalFits(limit);
    var b := NewBucket(limit);
    if limit.count <= limit.per {
      BurstIffItFits(limit, 0, limit.per + 1);
      assert (limit.per + 1) * b.interval >= limit.per + 1;
      assert !Decision(Fresh([limit]), 0, limit.per + 1).allowed;
    } else {
      forall now: int, n: nat ensures Decision(Fresh([limit]), now, n).allowed {
        BurstIffItFits(limit, now, n);
      }
    }
  }

  // --- The wait answered on a refusal is exact ---

  predicate Fits(bs: seq<Bucket>, n: nat) { forall i :: 0 <= i < |bs| ==> n * bs[i].interval <= bs[i].per }

  /** After a refusal nothing was taken, and the same request is let through from the
      answered wait on and at no earlier instant; one that can never fit never is. */
  lemma RefusalWaitIsExact(bs: seq<Bucket>, now: int, n: nat, later: int)
    requires AllSound(bs) && !Decision(bs, now, n).allowed
    requires forall i, j :: 0 <= i < |bs| && 0 <= j < |bs| ==> bs[i].latest == bs[j].latest
    ensures var refused := AfterAllow(bs, now, n);
            && (forall i :: 0 <= i < |bs| ==> refused[i].fullAt == bs[i].fullAt)
            && (Fits(bs, n) ==>
                  (Decision(refused, later, n).allowed <==>
                   later >= bs[0].At(now) + Decision(bs, now, n).retryAfter))
            && (!Fits(bs, n) ==> !Decision(refused, later, n).allowed)
  {
    var refused := AfterAllow(bs, now, n);
    var wait := RetryAfter(bs, now, n);
    RetryAfterIsTheLongest(bs, now, n);
    RetryAfterIsTheLongest(refused, later, n);
    var worst :| 0 <= worst < |bs| && bs[worst].Wait(bs[worst].At(now), n) == wait;
    forall i | 0 <= i < |bs|
      ensures Later(bs[i], now, n, later) == refused[i].Wait(refused[i].At(later), n)
      ensures n * bs[i].interval > bs[i].per ==> Later(bs[i], now, n, later) > 0
      ensures n * bs[i].interval <= bs[i].per && later >= bs[0].At(now) + wait ==> Later(bs[i], now, n, later) == 0
    {
      assert bs[i].latest == bs[0].latest;
      LaterWait(bs[i], now, n, later, wait);
    }
    if Fits(bs, n) {
      assert bs[worst].latest == bs[0].latest;
      LaterWait(bs[worst], now, n, later, wait);
    }
  }

  /** What b asks for at later once it was asked, and took nothing, at now. */
  function Later(b: Bucket, now: int, n: nat, later: int): int {
    b.Seen(now).Wait(b.Seen(now).At(later), n)
  }

  lemma LaterWait(b: Bucket, now: int, n: nat, later: int, wait: int)
    requires b.Sound() && b.Wait(b.At(now), n) <= wait
    ensures n * b.interval > b.per ==> Later(b, now, n, later) > 0
    ensures n * b.interval <= b.per && later >= b.At(now) + wait ==> Later(b, now, n, later) == 0
    ensures n * b.interval <= b.per && 0 < b.Wait(b.At(now), n) && later < b.At(now) + b.Wait(b.At(now), n) ==>
              Later(b, now, n, later) > 0
  {
  }

  /** The buckets of one limiter always saw the same latest time, so the wait is exact
      after every run. */
  lemma RefusalWaitIsExactInEveryRun(limits: seq<Limit>, ops: seq<Op>, now: int, n: nat, later: int)
    requires AllValid(limits) && !Decision(AfterRun(Fresh(limits), ops), now, n).allowed
    ensures var bs := AfterRun(Fresh(limits), ops);
            Fits(bs, n) ==>
              (Decision(AfterAllow(bs, now, n), later, n).allowed <==>
               later >= Max(now, Effective(ops)) + Decision(bs, now, n).retryAfter)
  {
    var bs := AfterRun(Fresh(limits), ops);
    forall i | 0 <= i < |bs|
      ensures bs[i].latest == Effective(ops) && bs[i].Sound()
    {
      LatestIsEffective(limits, ops, i);
      RunFacts(Fresh(limits), ops, i);
    }
    RefusalWaitIsExact(bs, now, n, later);
    RetryAfterIsTheLongest(bs, now, n);
  }

  // --- The plain token bucket the compact form refines ---

  /** Room for per units of time, in which each event takes interval of them. */
  datatype Tokens = Tokens(interval: int, per: int, room: int, at: int) {
    function Refilled(now: int): Tokens {
      this.(room := Min(per, room + (Max(now, at) - at)), at := Max(now, at))
    }
  }

  function RoomOf(b: Bucket): Tokens {
    Tokens(b.interval, b.per, b.per - Max(0, b.fullAt - b.latest), b.latest)
  }

  function RoomsOf(bs: seq<Bucket>): seq<Tokens> {
    seq(|bs|, i requires 0 <= i < |bs| => RoomOf(bs[i]))
  }

  predicate HaveRoom(ts: seq<Tokens>, now: int, n: nat) {
    forall i :: 0 <= i < |ts| ==> ts[i].Refilled(now).room >= n * ts[i].interval
  }

  /** Refill every bucket; take from all of them when all have room, else from none. */
  function TokensAfter(ts: seq<Tokens>, op: Op): seq<Tokens> {
    seq(|ts|, i requires 0 <= i < |ts| =>
      var t := ts[i].Refilled(op.now);
      match op
      case Take(now, n) => if HaveRoom(ts, now, n) then t.(room := t.room - n * t.interval) else t
      case Note(now) => t.(room := Max(0, t.room - t.interval)))
  }

  predicate TokensAllow(ts: seq<Tokens>, op: Op) { op.Take? && HaveRoom(ts, op.now, op.n) }

  /** The answers of a run, one per op. */
  function Answers(bs: seq<Bucket>, ops: seq<Op>): seq<bool>
    decreases ops
  {
    if ops == [] then [] else [OpAllowed(bs, ops[0])] + Answers(AfterOp(bs, ops[0]), ops[1..])
  }

  function TokenAnswers(ts: seq<Tokens>, ops: seq<Op>): seq<bool>
    decreases ops
  {
    if ops == [] then [] else [TokensAllow(ts, ops[0])] + TokenAnswers(TokensAfter(ts, ops[0]), ops[1..])
  }

  /** One bucket's clock, wait and updates are the token bucket's refill, shortfall and takes. */
  lemma BucketRefines(b: Bucket, now: int, n: nat)
    requires b.Sound()
    ensures RoomOf(b.Seen(now)) == RoomOf(b).Refilled(now) && b.Seen(now).Sound()
    ensures b.Wait(b.At(now), n) == Max(0, n * b.interval - RoomOf(b).Refilled(now).room)
    ensures b.Wait(b.At(now), n) == 0 ==>
              b.Taken(now, n).Sound()
              && RoomOf(b.Taken(now, n)) == var t := RoomOf(b).Refilled(now); t.(room := t.room - n * t.interval)
    ensures b.Recorded(now).Sound()
    ensures RoomOf(b.Recorded(now)) == var t := RoomOf(b).Refilled(now); t.(room := Max(0, t.room - t.interval))
  {
    assert n * b.interval >= 0 by { ProductNonNegative(n, b.interval); }
  }

  lemma ProductNonNegative(n: nat, i: int)
    requires i >= 0
    ensures n * i >= 0
  {
  }

  lemma WaitIffNoRoom(bs: seq<Bucket>, now: int, n: nat)
    requires AllSound(bs)
    ensures RetryAfter(bs, now, n) == 0 <==> HaveRoom(RoomsOf(bs), now, n)
  {
    RetryAfterIsTheLongest(bs, now, n);
    var ts := RoomsOf(bs);
    forall i | 0 <= i < |bs|
      ensures bs[i].Wait(bs[i].At(now), n) == Max(0, n * ts[i].interval - ts[i].Refilled(now).room)
    {
      BucketRefines(bs[i], now, n);
    }
  }

  lemma OneOpRefines(bs: seq<Bucket>, op: Op)
    requires AllSound(bs)
    ensures OpAllowed(bs, op) == TokensAllow(RoomsOf(bs), op)
    ensures RoomsOf(AfterOp(bs, op)) == TokensAfter(RoomsOf(bs), op)
    ensures AllSound(AfterOp(bs, op))
  {
    var n := if op.Take? then op.n else 0;
    WaitIffNoRoom(bs, op.now, n);
    RetryAfterIsTheLongest(bs, op.now, n);
    forall i | 0 <= i < |bs|
      ensures AfterOp(bs, op)[i].Sound()
      ensures RoomOf(AfterOp(bs, op)[i]) == TokensAfter(RoomsOf(bs), op)[i]
    {
      BucketRefines(bs[i], op.now, n);
    }
    assert RoomsOf(AfterOp(bs, op)) == TokensAfter(RoomsOf(bs), op);
  }

  /** A limit's token bucket: full, and each event takes its share of per. */
  function FullBucket(limit: Limit): Tokens
    requires limit.Valid()
  {
    Tokens(limit.per / limit.count, limit.per, limit.per, ZERO_TIME)
  }

  /** Every run of every combination of limits, from the first call on, answers what token
      buckets that start full answer. */
  lemma LimitsAreTokenBuckets(limits: seq<Limit>, ops: seq<Op>)
    requires AllValid(limits)
    ensures Answers(Fresh(limits), ops) == TokenAnswers(seq(|limits|, i requires 0 <= i < |limits| => FullBucket(limits[i])), ops)
  {
    var full := seq(|limits|, i requires 0 <= i < |limits| => FullBucket(limits[i]));
    assert RoomsOf(Fresh(limits)) == full;
    RefinesTokenBuckets(Fresh(limits), ops);
  }

  /** From any sound buckets, in particular those of any run, the answers are those of the
      token buckets they stand for. */
  lemma {:induction false} RefinesTokenBuckets(bs: seq<Bucket>, ops: seq<Op>)
    requires AllSound(bs)
    ensures Answers(bs, ops) == TokenAnswers(RoomsOf(bs), ops)
    decreases ops
  {
    if ops != [] {
      OneOpRefines(bs, ops[0]);
      RefinesTokenBuckets(AfterOp(bs, ops[0]), ops[1..]);
    }
  }
}
