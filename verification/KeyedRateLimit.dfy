/** Keyed: the same limits on each key, forgetting in a sweep the keys whose room fully
    came back (utils/ratelimit/ratelimit.go:133-206). */
module KeyedRateLimit {
  import opened RateLimit

  /** The longest per: how often a sweep may happen. */
  function SweepEvery(limits: seq<Limit>): int {
    if limits == [] then 0 else Max(SweepEvery(limits[..|limits| - 1]), limits[|limits| - 1].per)
  }

  lemma {:induction false} SweepEveryIsTheLongest(limits: seq<Limit>)
    ensures forall i :: 0 <= i < |limits| ==> limits[i].per <= SweepEvery(limits)
    ensures SweepEvery(limits) >= 0
    ensures AllValid(limits) ==>
              if limits == [] then SweepEvery(limits) == 0 else exists i :: 0 <= i < |limits| && limits[i].per == SweepEvery(limits)
  {
    if limits != [] {
      var last := |limits| - 1;
      SweepEveryIsTheLongest(limits[..last]);
      assert limits[last].per <= SweepEvery(limits);
    }
  }

  datatype Memory = Memory(subjects: map<string, seq<Bucket>>, lastSweep: int)

  datatype Answer = Answer(verdict: Verdict, swept: bool)

  predicate AllFull(bs: seq<Bucket>, now: int) { forall i :: 0 <= i < |bs| ==> bs[i].Full(now) }

  predicate Sweeps(limits: seq<Limit>, m: Memory, now: int) { now - m.lastSweep >= SweepEvery(limits) }

  function Swept(limits: seq<Limit>, m: Memory, now: int): Memory {
    if !Sweeps(limits, m, now) then m
    else Memory(map k | k in m.subjects && !AllFull(m.subjects[k], now) :: m.subjects[k], now)
  }

  function Remembered(limits: seq<Limit>, m: Memory, key: string): seq<Bucket>
    requires AllValid(limits)
  {
    if key in m.subjects then m.subjects[key] else Fresh(limits)
  }

  function AfterCall(limits: seq<Limit>, m: Memory, key: string, now: int): Memory
    requires AllValid(limits)
  {
    var swept := Swept(limits, m, now);
    swept.(subjects := swept.subjects[key := AfterAllow(Remembered(limits, swept, key), now, 1)])
  }

  function CallAnswer(limits: seq<Limit>, m: Memory, key: string, now: int): Answer
    requires AllValid(limits)
  {
    Answer(Decision(Remembered(limits, Swept(limits, m, now), key), now, 1), Sweeps(limits, m, now))
  }

  /** A call answers that it swept exactly when no limit's period is longer than what passed
      since the last sweep. Then, and only then, the sweep's time moves and every other key
      all of whose buckets are full is forgotten; the rest of the memory stays. */
  lemma AnswerSaysWhetherItSwept(limits: seq<Limit>, m: Memory, key: string, now: int)
    requires AllValid(limits)
    ensures var next, swept := AfterCall(limits, m, key, now), CallAnswer(limits, m, key, now).swept;
            && (swept <==> m.lastSweep <= now && forall i :: 0 <= i < |limits| ==> limits[i].per <= now - m.lastSweep)
            && next.lastSweep == (if swept then now else m.lastSweep) && key in next.subjects
            && forall k :: k != key ==>
                 && (k in next.subjects <==> k in m.subjects && !(swept && AllFull(m.subjects[k], now)))
                 && (k in next.subjects ==> next.subjects[k] == m.subjects[k])
  {
    SweepEveryIsTheLongest(limits);
  }

  class Keyed {
    const limits: seq<Limit>
    const sweepEvery: int
    var subjects: map<string, array<Bucket>>
    var lastSweep: int
    /** Whose buckets an array holds: no two keys share theirs. */
    ghost var keyOf: map<array<Bucket>, string>

    /** The limits are kept, and every key's buckets are its own. */
    ghost predicate Valid()
      reads this
    {
      && AllValid(limits) && sweepEvery == SweepEvery(limits)
      && forall k :: k in subjects ==> subjects[k] in keyOf && keyOf[subjects[k]] == k
    }

    ghost function Contents(): Memory
      reads this, subjects.Values
    {
      Memory(map k | k in subjects :: subjects[k][..], lastSweep)
    }

    constructor (limits: seq<Limit>)
      requires AllValid(limits)
      ensures Valid() && this.limits == limits && Contents() == Memory(map[], ZERO_TIME)
    {
      var longest := 0;
      for i := 0 to |limits|
        invariant longest == SweepEvery(limits[..i])
      {
        assert limits[..i + 1][..i] == limits[..i];
        longest := Max(longest, limits[i].per);
      }
      assert limits[..|limits|] == limits;
      this.limits, sweepEvery, subjects, lastSweep, keyOf := limits, longest, map[], ZERO_TIME, map[];
    }

    method Allow(key: string, now: int) returns (answer: Answer)
      requires Valid()
      modifies this, subjects.Values
      ensures Valid() && forall k :: k in subjects ==> fresh(subjects[k]) || subjects[k] in old(subjects.Values)
      ensures Contents() == AfterCall(limits, old(Contents()), key, now)
      ensures answer == CallAnswer(limits, old(Contents()), key, now)
    {
      var swept := Sweep(now);
      var verdict := AllowSwept(key, now);
      answer := Answer(verdict, swept);
    }

    /** Allow once swept: the key's buckets, made when it is not remembered, decide. */
    method AllowSwept(key: string, now: int) returns (verdict: Verdict)
      requires Valid()
      modifies this, subjects.Values
      ensures Valid() && forall k :: k in subjects ==> fresh(subjects[k]) || subjects[k] in old(subjects.Values)
      ensures Contents() == old(Contents()).(subjects := old(Contents()).subjects[
                key := AfterAllow(Remembered(limits, old(Contents()), key), now, 1)])
      ensures verdict == Decision(Remembered(limits, old(Contents()), key), now, 1)
    {
      ghost var m := Contents().subjects;
      var buckets := Find(key);
      verdict := AllowIn(buckets, now, 1);
      assert Contents().subjects == m[key := buckets[..]];
    }

    method Find(key: string) returns (buckets: array<Bucket>)
      requires Valid()
      modifies this
      ensures Valid() && lastSweep == old(lastSweep)
      ensures subjects == old(subjects)[key := buckets]
      ensures key in old(subjects) ==> buckets == old(subjects[key])
      ensures key !in old(subjects) ==> fresh(buckets)
      ensures buckets[..] == Remembered(limits, old(Contents()), key)
    {
      if key in subjects {
        buckets := subjects[key];
      } else {
        buckets := new Bucket[|limits|](i requires 0 <= i < |limits| => NewBucket(limits[i]));
        assert buckets[..] == Fresh(limits);
        subjects, keyOf := subjects[key := buckets], keyOf[buckets := key];
      }
    }

    method Sweep(now: int) returns (swept: bool)
      requires Valid()
      modifies this
      ensures Valid() && forall k :: k in subjects ==> k in old(subjects) && subjects[k] == old(subjects[k])
      ensures Contents() == Swept(limits, old(Contents()), now)
      ensures swept == Sweeps(limits, old(Contents()), now)
    {
      if now - lastSweep < sweepEvery {
        return false;
      }
      ghost var was, held := subjects, Contents().subjects;
      lastSweep := now;
      var left := subjects.Keys;
      while left != {}
        invariant left <= was.Keys == held.Keys && subjects.Keys <= was.Keys
        invariant forall k :: k in was ==> (k in subjects <==> k in left || !AllFull(held[k], now))
        invariant forall k :: k in subjects ==> subjects[k] == was[k]
        invariant lastSweep == now && keyOf == old(keyOf)
        decreases left
      {
        var key :| key in left;
        var full := EveryFull(subjects[key], now);
        if full {
          subjects := subjects - {key};
        }
        left := left - {key};
      }
      assert Contents().subjects == Swept(limits, old(Contents()), now).subjects;
      return true;
    }
  }

  method EveryFull(buckets: array<Bucket>, now: int) returns (full: bool)
    ensures full == AllFull(buckets[..], now)
  {
    for i := 0 to buckets.Length
      invariant forall k :: 0 <= k < i ==> buckets[k].Full(now)
    {
      if !buckets[i].Full(now) {
        return false;
      }
    }
    return true;
  }

  // --- Sweeping changes no answer ---

  datatype Call = Call(key: string, now: int)

  function After(limits: seq<Limit>, calls: seq<Call>): Memory
    requires AllValid(limits)
  {
    if calls == [] then Memory(map[], ZERO_TIME)
    else var last := calls[|calls| - 1]; AfterCall(limits, After(limits, calls[..|calls| - 1]), last.key, last.now)
  }

  /** A limiter of key's own that is never forgotten, after key's calls among calls. */
  function Own(limits: seq<Limit>, calls: seq<Call>, key: string): seq<Bucket>
    requires AllValid(limits)
  {
    if calls == [] then Fresh(limits)
    else
      var last, before := calls[|calls| - 1], Own(limits, calls[..|calls| - 1], key);
      if last.key == key then AfterAllow(before, last.now, 1) else before
  }

  /** No call of key is earlier than the last sweep before it; the clock may otherwise go
      backwards, and other keys' calls may come at any time. */
  predicate OnTime(limits: seq<Limit>, calls: seq<Call>, key: string)
    requires AllValid(limits)
  {
    forall k :: 0 <= k < |calls| && calls[k].key == key ==> After(limits, calls[..k]).lastSweep <= calls[k].now
  }

  /** Nothing decided at since or later can tell a from b. */
  predicate Alike(a: Bucket, b: Bucket, since: int) {
    && a.interval == b.interval && a.per == b.per
    && (a.fullAt == b.fullAt || (a.fullAt <= since && b.fullAt <= since))
    && (a.latest == b.latest || (a.latest <= since && b.latest <= since))
  }

  predicate AllAlike(left: seq<Bucket>, bs: seq<Bucket>, since: int) {
    |left| == |bs| && forall i :: 0 <= i < |left| ==> Alike(left[i], bs[i], since)
  }

  lemma {:induction false} AlikeAnswerAlike(left: seq<Bucket>, bs: seq<Bucket>, since: int, now: int, n: nat)
    requires AllAlike(left, bs, since) && since <= now
    ensures RetryAfter(left, now, n) == RetryAfter(bs, now, n)
    ensures AllAlike(AfterAllow(left, now, n), AfterAllow(bs, now, n), since)
  {
    if |left| > 0 {
      AlikeAnswerAlike(left[..|left| - 1], bs[..|bs| - 1], since, now, n);
    }
  }

  /** A limiter's buckets, sound, made for limits, and all of one latest time, which some
      bucket's full instant is not before. */
  predicate Kept(limits: seq<Limit>, bs: seq<Bucket>)
    requires AllValid(limits)
  {
    && |bs| == |limits| && AllSound(bs)
    && forall i :: 0 <= i < |bs| ==> bs[i].interval == limits[i].per / limits[i].count && bs[i].per == limits[i].per
  }

  predicate Timely(bs: seq<Bucket>) {
    && (forall i, j :: 0 <= i < |bs| && 0 <= j < |bs| ==> bs[i].latest == bs[j].latest)
    && (bs != [] ==> exists i :: 0 <= i < |bs| && bs[i].latest <= bs[i].fullAt)
  }

  lemma FreshIsKept(limits: seq<Limit>)
    requires AllValid(limits)
    ensures Kept(limits, Fresh(limits)) && Timely(Fresh(limits))
  {
    assert limits != [] ==> Fresh(limits)[0].latest <= Fresh(limits)[0].fullAt;
  }

  lemma AllowKeeps(limits: seq<Limit>, bs: seq<Bucket>, now: int)
    requires AllValid(limits) && Kept(limits, bs)
    ensures Kept(limits, AfterAllow(bs, now, 1))
    ensures Timely(bs) ==> Timely(AfterAllow(bs, now, 1))
  {
    RetryAfterIsTheLongest(bs, now, 1);
    OneOpRefines(bs, Take(now, 1));
    if Timely(bs) && bs != [] {
      var after := AfterAllow(bs, now, 1);
      if RetryAfter(bs, now, 1) > 0 {
        var i :| 0 <= i < |bs| && bs[i].Wait(bs[i].At(now), 1) == RetryAfter(bs, now, 1);
        assert after[i].latest <= after[i].fullAt;
      } else {
        assert after[0].latest <= after[0].fullAt;
      }
    }
  }

  lemma {:induction false} OwnIsKept(limits: seq<Limit>, calls: seq<Call>, key: string)
    requires AllValid(limits)
    ensures Kept(limits, Own(limits, calls, key)) && Timely(Own(limits, calls, key))
  {
    FreshIsKept(limits);
    if calls != [] {
      OwnIsKept(limits, calls[..|calls| - 1], key);
      AllowKeeps(limits, Own(limits, calls[..|calls| - 1], key), calls[|calls| - 1].now);
    }
  }

  lemma {:induction false} LastSweepStarts(limits: seq<Limit>, calls: seq<Call>)
    requires AllValid(limits)
    ensures After(limits, calls).lastSweep >= ZERO_TIME
  {
    SweepEveryIsTheLongest(limits);
    if calls != [] {
      LastSweepStarts(limits, calls[..|calls| - 1]);
    }
  }

  /** A key is forgotten only once its own limiter has been full since its latest time. */
  lemma FullIsAlikeFresh(limits: seq<Limit>, left: seq<Bucket>, own: seq<Bucket>, since: int, now: int)
    requires AllValid(limits) && Kept(limits, own) && Timely(own) && AllAlike(left, own, since)
    requires since <= now && ZERO_TIME <= now && AllFull(left, now)
    ensures AllAlike(Fresh(limits), own, now)
  {
    if own != [] {
      var i :| 0 <= i < |own| && own[i].latest <= own[i].fullAt;
      assert left[i].Full(now) && own[i].fullAt <= now;
    }
    forall i | 0 <= i < |own|
      ensures Alike(Fresh(limits)[i], own[i], now)
    {
      assert left[i].Full(now);
    }
  }

  lemma AlikeLater(left: seq<Bucket>, own: seq<Bucket>, since: int, now: int)
    requires AllAlike(left, own, since) && since <= now
    ensures AllAlike(left, own, now)
  {
  }

  lemma SweepKeepsAlike(limits: seq<Limit>, calls: seq<Call>, key: string, now: int)
    requires AllValid(limits)
    requires AllAlike(Remembered(limits, After(limits, calls), key), Own(limits, calls, key), After(limits, calls).lastSweep)
    ensures var swept := Swept(limits, After(limits, calls), now);
            AllAlike(Remembered(limits, swept, key), Own(limits, calls, key), swept.lastSweep)
            && After(limits, calls).lastSweep <= swept.lastSweep
  {
    var m, own := After(limits, calls), Own(limits, calls, key);
    var left := Remembered(limits, m, key);
    SweepEveryIsTheLongest(limits);
    LastSweepStarts(limits, calls);
    OwnIsKept(limits, calls, key);
    if Sweeps(limits, m, now) {
      AlikeLater(left, own, m.lastSweep, now);
      if key in m.subjects && AllFull(left, now) {
        FullIsAlikeFresh(limits, left, own, m.lastSweep, now);
      }
    }
  }

  lemma {:induction false} KeyedIsAlikeOwn(limits: seq<Limit>, calls: seq<Call>, key: string)
    requires AllValid(limits) && OnTime(limits, calls, key)
    ensures AllAlike(Remembered(limits, After(limits, calls), key), Own(limits, calls, key), After(limits, calls).lastSweep)
  {
    if calls != [] {
      var init, last := calls[..|calls| - 1], calls[|calls| - 1];
      assert OnTime(limits, init, key) by {
        assert forall k :: 0 <= k < |init| ==> init[..k] == calls[..k];
      }
      KeyedIsAlikeOwn(limits, init, key);
      SweepKeepsAlike(limits, init, key, last.now);
      if last.key == key {
        var swept := Swept(limits, After(limits, init), last.now);
        AlikeAnswerAlike(Remembered(limits, swept, key), Own(limits, init, key), swept.lastSweep, last.now, 1);
      }
    }
  }

  /** Every call on a key none of whose calls is earlier than the last sweep before it is
      answered as that key's own never-forgotten limiter answers it. */
  lemma SweepingChangesNoAnswer(limits: seq<Limit>, calls: seq<Call>, key: string, now: int)
    requires AllValid(limits) && OnTime(limits, calls + [Call(key, now)], key)
    ensures CallAnswer(limits, After(limits, calls), key, now).verdict == Decision(Own(limits, calls, key), now, 1)
  {
    var all := calls + [Call(key, now)];
    assert all[|calls|] == Call(key, now) && all[..|calls|] == calls;
    assert OnTime(limits, calls, key) by {
      assert forall k :: 0 <= k < |calls| ==> calls[..k] == all[..k] && calls[k] == all[k];
    }
    KeyedIsAlikeOwn(limits, calls, key);
    SweepKeepsAlike(limits, calls, key, now);
    var swept := Swept(limits, After(limits, calls), now);
    AlikeAnswerAlike(Remembered(limits, swept, key), Own(limits, calls, key), swept.lastSweep, now, 1);
  }

  /** The clock never goes backwards, and starts no earlier than the zero time. */
  predicate NonDecreasing(calls: seq<Call>) {
    && (forall i :: 0 <= i < |calls| ==> ZERO_TIME <= calls[i].now)
    && (forall i, j :: 0 <= i < j < |calls| ==> calls[i].now <= calls[j].now)
  }

  function LastNow(calls: seq<Call>): int { if calls == [] then ZERO_TIME else calls[|calls| - 1].now }

  /** So every call is with a clock that never goes backwards. */
  lemma NonDecreasingIsOnTime(limits: seq<Limit>, calls: seq<Call>, key: string)
    requires AllValid(limits) && NonDecreasing(calls)
    ensures OnTime(limits, calls, key)
  {
    forall k | 0 <= k < |calls|
      ensures After(limits, calls[..k]).lastSweep <= calls[k].now
    {
      LastSweepIsPast(limits, calls[..k]);
    }
  }

  // --- The limits for which no clock can make a difference ---

  lemma {:induction false} RememberedIsKept(limits: seq<Limit>, calls: seq<Call>, key: string)
    requires AllValid(limits)
    ensures Kept(limits, Remembered(limits, After(limits, calls), key))
  {
    FreshIsKept(limits);
    if calls != [] {
      var init, last := calls[..|calls| - 1], calls[|calls| - 1];
      RememberedIsKept(limits, init, key);
      RememberedIsKept(limits, init, last.key);
      AllowKeeps(limits, Remembered(limits, Swept(limits, After(limits, init), last.now), last.key), last.now);
    }
  }

  predicate NothingLimited(limits: seq<Limit>) { forall i :: 0 <= i < |limits| ==> limits[i].count > limits[i].per }

  lemma NothingLimitedAllows(limits: seq<Limit>, bs: seq<Bucket>, now: int)
    requires AllValid(limits) && NothingLimited(limits) && Kept(limits, bs)
    ensures Decision(bs, now, 1) == Verdict(true, 0)
  {
    RetryAfterIsTheLongest(bs, now, 1);
    forall i | 0 <= i < |bs|
      ensures bs[i].Wait(bs[i].At(now), 1) == 0
    {
      IntervalFits(limits[i]);
      assert bs[i].Sound();
    }
  }

  function Repeated(key: string, m: nat): seq<Call> { seq(m, _ => Call(key, ZERO_TIME)) }

  lemma OneMoreCall(limits: seq<Limit>, key: string, m: nat)
    requires AllValid(limits)
    ensures Own(limits, Repeated(key, m + 1), key) == AfterAllow(Own(limits, Repeated(key, m), key), ZERO_TIME, 1)
    ensures After(limits, Repeated(key, m + 1)) == AfterCall(limits, After(limits, Repeated(key, m)), key, ZERO_TIME)
  {
    assert Repeated(key, m + 1)[..m] == Repeated(key, m);
  }

  /** With calls at the zero time only, nothing is swept and no later time seen. */
  lemma {:induction false} NothingHappened(limits: seq<Limit>, key: string, m: nat)
    requires AllValid(limits) && limits != []
    ensures After(limits, Repeated(key, m)).lastSweep == ZERO_TIME
    ensures |Own(limits, Repeated(key, m), key)| == |limits|
    ensures forall i :: 0 <= i < |limits| ==> Own(limits, Repeated(key, m), key)[i].latest == ZERO_TIME
    ensures m > 0 ==> key in After(limits, Repeated(key, m)).subjects
    ensures AllAlike(Remembered(limits, After(limits, Repeated(key, m)), key), Own(limits, Repeated(key, m), key), ZERO_TIME)
  {
    SweepEveryIsTheLongest(limits);
    OwnIsKept(limits, Repeated(key, m), key);
    if m > 0 {
      OneMoreCall(limits, key, m - 1);
      NothingHappened(limits, key, m - 1);
      var left := Remembered(limits, After(limits, Repeated(key, m - 1)), key);
      AlikeAnswerAlike(left, Own(limits, Repeated(key, m - 1), key), ZERO_TIME, ZERO_TIME, 1);
    }
  }

  /** Enough calls at once are refused by a limit whose interval is not 0. */
  lemma {:induction false} FillsUp(limits: seq<Limit>, key: string, i: nat, m: nat) returns (calls: nat)
    requires AllValid(limits) && i < |limits| && limits[i].count <= limits[i].per
    requires |Own(limits, Repeated(key, m), key)| == |limits| && Own(limits, Repeated(key, m), key)[i].fullAt >= m
    ensures calls > 0 && !Decision(Own(limits, Repeated(key, calls), key), ZERO_TIME, 1).allowed
    decreases limits[i].per - m
  {
    var own := Own(limits, Repeated(key, m), key);
    IntervalFits(limits[i]);
    OwnIsKept(limits, Repeated(key, m), key);
    NothingHappened(limits, key, m);
    RetryAfterIsTheLongest(own, ZERO_TIME, 1);
    assert own[i].Sound();
    if !Decision(own, ZERO_TIME, 1).allowed && m > 0 {
      calls := m;
    } else {
      OneMoreCall(limits, key, m);
      OwnIsKept(limits, Repeated(key, m + 1), key);
      NothingHappened(limits, key, m + 1);
      calls := FillsUp(limits, key, i, m + 1);
    }
  }

  /** A sweep one period later forgets the key, and a call of it with the clock gone back
      is let through as its first. */
  lemma ForgottenTooSoon(limits: seq<Limit>, m: nat)
    requires AllValid(limits) && limits != [] && m > 0
    ensures var calls := Repeated("a", m) + [Call("b", SweepEvery(limits))];
            && CallAnswer(limits, After(limits, calls), "a", ZERO_TIME).verdict.allowed
            && Own(limits, calls, "a") == Own(limits, Repeated("a", m), "a")
  {
    var first, period := Repeated("a", m), SweepEvery(limits);
    var calls := first + [Call("b", period)];
    assert calls[..m] == first;
    SweepEveryIsTheLongest(limits);
    NothingHappened(limits, "a", m);
    RememberedIsKept(limits, first, "a");
    assert AllFull(After(limits, first).subjects["a"], period);
    assert "a" !in After(limits, calls).subjects;
    FreshAllows(limits);
  }

  lemma FreshAllows(limits: seq<Limit>)
    requires AllValid(limits)
    ensures Decision(Fresh(limits), ZERO_TIME, 1).allowed
  {
    RetryAfterIsTheLongest(Fresh(limits), ZERO_TIME, 1);
    forall i | 0 <= i < |limits|
      ensures Fresh(limits)[i].Wait(Fresh(limits)[i].At(ZERO_TIME), 1) == 0
    {
      IntervalFits(limits[i]);
    }
  }

  /** With any clock at all, a Keyed answers as never-forgotten limiters would. */
  ghost predicate AlwaysAgrees(limits: seq<Limit>)
    requires AllValid(limits)
  {
    forall calls, key, now ::
      CallAnswer(limits, After(limits, calls), key, now).verdict == Decision(Own(limits, calls, key), now, 1)
  }

  lemma NothingLimitedAgrees(limits: seq<Limit>, calls: seq<Call>, key: string, now: int)
    requires AllValid(limits) && NothingLimited(limits)
    ensures CallAnswer(limits, After(limits, calls), key, now).verdict == Decision(Own(limits, calls, key), now, 1)
  {
    RememberedIsKept(limits, calls, key);
    OwnIsKept(limits, calls, key);
    FreshIsKept(limits);
    NothingLimitedAllows(limits, Remembered(limits, Swept(limits, After(limits, calls), now), key), now);
    NothingLimitedAllows(limits, Own(limits, calls, key), now);
  }

  lemma LimitedDisagrees(limits: seq<Limit>, i: nat) returns (calls: seq<Call>)
    requires AllValid(limits) && i < |limits| && limits[i].count <= limits[i].per
    ensures CallAnswer(limits, After(limits, calls), "a", ZERO_TIME).verdict != Decision(Own(limits, calls, "a"), ZERO_TIME, 1)
  {
    FreshIsKept(limits);
    var m := FillsUp(limits, "a", i, 0);
    ForgottenTooSoon(limits, m);
    calls := Repeated("a", m) + [Call("b", SweepEvery(limits))];
  }

  /** It does so if and only if its limits refuse nothing: each asks for more events than
      there are units of time in its period. */
  lemma AlwaysAgreesIffNothingLimited(limits: seq<Limit>)
    requires AllValid(limits)
    ensures AlwaysAgrees(limits) <==> NothingLimited(limits)
  {
    if NothingLimited(limits) {
      forall calls, key, now
        ensures CallAnswer(limits, After(limits, calls), key, now).verdict == Decision(Own(limits, calls, key), now, 1)
      {
        NothingLimitedAgrees(limits, calls, key, now);
      }
    } else {
      var i :| 0 <= i < |limits| && limits[i].count <= limits[i].per;
      var calls := LimitedDisagrees(limits, i);
    }
  }

  /** With a clock going backwards a forgotten key gets room its own limiter refuses. */
  lemma ClockGoingBackwardsForgetsTooMuch()
    ensures var limits, calls := [Limit(1, 5)], [Call("a", 10), Call("b", 20)];
            && CallAnswer(limits, After(limits, calls), "a", 12).verdict.allowed
            && !Decision(Own(limits, calls, "a"), 12, 1).allowed
  {
    var limits, c0, c1 := [Limit(1, 5)], Call("a", 10), Call("b", 20);
    var unused := Bucket(5, 5, 0, 0);
    assert Fresh(limits) == [unused];
    assert SweepEvery(limits) == Max(SweepEvery(limits[..0]), 5) == 5;
    assert [c0, c1][..1] == [c0] && [c0][..0] == [];
    OneBucket(unused, 10);
    OneBucket(unused, 20);
    OneBucket(unused, 12);
    var m1 := After(limits, [c0]);
    assert m1 == AfterCall(limits, After(limits, []), "a", 10);
    assert Swept(limits, Memory(map[], ZERO_TIME), 10) == Memory(map[], 10);
    assert AfterAllow([unused], 10, 1) == [Bucket(5, 5, 15, 10)];
    assert m1 == Memory(map["a" := [Bucket(5, 5, 15, 10)]], 10);
    OneBucket(Bucket(5, 5, 15, 10), 12);
    assert Own(limits, [c0], "a") == AfterAllow(Own(limits, [], "a"), 10, 1) == [Bucket(5, 5, 15, 10)];
    assert Own(limits, [c0, c1], "a") == Own(limits, [c0], "a");
    assert After(limits, [c0, c1]) == AfterCall(limits, m1, "b", 20);
    assert AllFull(m1.subjects["a"], 20);
    assert "a" !in After(limits, [c0, c1]).subjects;
  }

  lemma OneBucket(b: Bucket, now: int)
    ensures RetryAfter([b], now, 1) == b.Wait(b.At(now), 1)
  {
    assert RetryAfter([b], now, 1) == Max(RetryAfter([b][..0], now, 1), b.Wait(b.At(now), 1));
  }

  // --- Memory follows the keys called lately ---

  predicate CalledSince(calls: seq<Call>, key: string, since: int) {
    exists i :: 0 <= i < |calls| && calls[i].key == key && since <= calls[i].now
  }

  /** How long after its last call a key can still be remembered: just under two periods. */
  function Reach(limits: seq<Limit>): int { Max(0, 2 * SweepEvery(limits) - 2) }

  /** Every key remembered after a run was called within that reach. */
  lemma RememberedKeysWereCalledLately(limits: seq<Limit>, calls: seq<Call>, key: string)
    requires AllValid(limits) && NonDecreasing(calls)
    requires key in After(limits, calls).subjects
    ensures CalledSince(calls, key, LastNow(calls) - Reach(limits))
  {
    RememberedSince(limits, calls, key);
    LastSweepIsRecent(limits, calls);
    var swept := After(limits, calls).lastSweep;
    CalledSinceEarlier(calls, key, swept - Max(0, SweepEvery(limits) - 1), LastNow(calls) - Reach(limits));
  }

  /** The reach is exact for every period: a key called once, that long ago, is remembered. */
  lemma ReachIsAttained(per: int)
    requires per >= 2
    ensures var limits, calls := [Limit(1, per)], [Call("a", 1), Call("b", per), Call("b", 2 * per - 1)];
            && NonDecreasing(calls) && "a" in After(limits, calls).subjects
            && LastNow(calls) - Reach(limits) == 1 && (forall i :: 0 <= i < |calls| && calls[i].key == "a" ==> calls[i].now == 1)
  {
    var limits, c0, c1, c2 := [Limit(1, per)], Call("a", 1), Call("b", per), Call("b", 2 * per - 1);
    IntervalFits(Limit(1, per));
    DivisionByOne(per);
    assert Fresh(limits) == [Bucket(per, per, 0, 0)];
    assert SweepEvery(limits) == Max(SweepEvery(limits[..0]), per) == per;
    assert [c0, c1, c2][..2] == [c0, c1] && [c0, c1][..1] == [c0] && [c0][..0] == [];
    OneBucket(Bucket(per, per, 0, 0), 1);
    var m0 := After(limits, [c0]);
    assert m0 == AfterCall(limits, After(limits, []), "a", 1);
    assert m0.subjects["a"] == [Bucket(per, per, per + 1, 1)] && m0.lastSweep == 0;
    var m1 := After(limits, [c0, c1]);
    assert m1 == AfterCall(limits, m0, "b", per);
    assert !m0.subjects["a"][0].Full(per);
    assert "a" in m1.subjects && m1.lastSweep == per;
    assert After(limits, [c0, c1, c2]) == AfterCall(limits, m1, "b", 2 * per - 1);
  }

  lemma DivisionByOne(n: int)
    ensures n / 1 == n
  {
  }

  lemma {:induction false} LastSweepIsRecent(limits: seq<Limit>, calls: seq<Call>)
    requires AllValid(limits) && NonDecreasing(calls)
    ensures After(limits, calls).lastSweep >= LastNow(calls) - Max(0, SweepEvery(limits) - 1)
  {
    SweepEveryIsTheLongest(limits);
    assert limits != [] ==> limits[0].per <= SweepEvery(limits);
  }

  /** Sound buckets within the longest per, each last touched by a call of key. */
  predicate TouchedByCalls(limits: seq<Limit>, calls: seq<Call>, bs: seq<Bucket>, key: string) {
    && AllSound(bs)
    && forall i :: 0 <= i < |bs| ==> bs[i].per <= SweepEvery(limits) && CalledSince(calls, key, bs[i].latest)
  }

  lemma {:induction false} RememberedSince(limits: seq<Limit>, calls: seq<Call>, key: string)
    requires AllValid(limits) && NonDecreasing(calls)
    requires key in After(limits, calls).subjects
    ensures TouchedByCalls(limits, calls, After(limits, calls).subjects[key], key)
    ensures CalledSince(calls, key, After(limits, calls).lastSweep - Max(0, SweepEvery(limits) - 1))
  {
    var init, last := calls[..|calls| - 1], calls[|calls| - 1];
    var was, swept := After(limits, init), Swept(limits, After(limits, init), last.now);
    if key in swept.subjects {
      RememberedSince(limits, init, key);
      CalledEarlier(calls, key);
      assert TouchedByCalls(limits, calls, swept.subjects[key], key);
      if Sweeps(limits, was, last.now) {
        var i :| 0 <= i < |was.subjects[key]| && !was.subjects[key][i].Full(last.now);
        assert CalledSince(calls, key, was.subjects[key][i].latest);
        CalledSinceEarlier(calls, key, was.subjects[key][i].latest, last.now - Max(0, SweepEvery(limits) - 1));
      }
    }
    if key == last.key {
      assert calls[|calls| - 1].key == key;
      SweepEveryIsTheLongest(limits);
      CallTouches(limits, calls, Remembered(limits, swept, key));
      LastSweepIsPast(limits, init);
    }
  }

  lemma CallTouches(limits: seq<Limit>, calls: seq<Call>, bs: seq<Bucket>)
    requires calls != [] && NonDecreasing(calls) && AllSound(bs)
    requires var key := calls[|calls| - 1].key;
             forall i :: 0 <= i < |bs| ==>
               bs[i].per <= SweepEvery(limits) && (bs[i].latest == ZERO_TIME || CalledSince(calls, key, bs[i].latest))
    ensures var last := calls[|calls| - 1]; TouchedByCalls(limits, calls, AfterAllow(bs, last.now, 1), last.key)
  {
    var last := calls[|calls| - 1];
    OneOpRefines(bs, Take(last.now, 1));
    assert CalledSince(calls, last.key, last.now);
  }

  lemma {:induction false} LastSweepIsPast(limits: seq<Limit>, calls: seq<Call>)
    requires AllValid(limits) && NonDecreasing(calls)
    ensures After(limits, calls).lastSweep <= LastNow(calls) && 0 <= SweepEvery(limits)
  {
    SweepEveryIsTheLongest(limits);
    assert limits != [] ==> limits[0].per <= SweepEvery(limits);
    if calls != [] {
      LastSweepIsPast(limits, calls[..|calls| - 1]);
    }
  }

  lemma CalledSinceEarlier(calls: seq<Call>, key: string, since: int, earlier: int)
    requires CalledSince(calls, key, since) && earlier <= since
    ensures CalledSince(calls, key, earlier)
  {
    var i :| 0 <= i < |calls| && calls[i].key == key && since <= calls[i].now;
    assert calls[i].key == key;
  }

  lemma CalledEarlier(calls: seq<Call>, key: string)
    requires calls != []
    ensures forall since :: CalledSince(calls[..|calls| - 1], key, since) ==> CalledSince(calls, key, since)
  {
    forall since | CalledSince(calls[..|calls| - 1], key, since)
      ensures CalledSince(calls, key, since)
    {
      var i :| 0 <= i < |calls| - 1 && calls[..|calls| - 1][i].key == key && since <= calls[..|calls| - 1][i].now;
      assert calls[i].key == key;
    }
  }
}
