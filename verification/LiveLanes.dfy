/** A lane of a live connection: offer, split by its lock sections, against the lane's own
    loop (api/internal/live/lanes.go). One reading goroutine offers to each lane; any
    number of offering goroutines is allowed here, to say what having one is worth. */
module LiveLanes {

  type Message = string

  /** Where an offering goroutine stands: between calls, past the check that the lane is not
      full, past its rate limit, or past appending and about to signal. */
  datatype Offering = Resting | NotFull(data: Message) | Admitted(data: Message) | Appended

  datatype Looping = Looking | Waiting | Handling(data: Message) | Stopped

  datatype Verdict = Accepted | RefusedQueue | RefusedRate

  /** One message offered, the lane's length when it was checked, and what became of it. */
  datatype Offer = Offer(data: Message, length: nat, verdict: Verdict)

  /** The lane and its connection's context, with what was settled and handled so far. */
  datatype Lane = Lane(capacity: nat, pending: seq<Message>, wake: bool, offering: seq<Offering>,
                       loop: Looping, done: bool, accepted: seq<Message>, handled: seq<Message>, offers: seq<Offer>)

  datatype Step =
    | Checks(i: nat, checked: Message)
    | Rates(i: nat, allowed: bool)
    | Appends(i: nat)
    | Signals(i: nat)
    | Looks
    | Wakes
    | Cancels
    | SeesDone
    | Handled(ended: bool)

  function Offered(l: Lane, i: nat, to: Offering): Lane
    requires i < |l.offering|
  {
    l.(offering := l.offering[i := to])
  }

  function OfferStep(l: Lane, i: nat, s: Step): Lane
    requires i < |l.offering| && (s.Checks? || s.Rates? || s.Appends? || s.Signals?)
  {
    match (s, l.offering[i])
    case (Checks(_, data), Resting) =>
      if |l.pending| >= l.capacity then l.(offers := l.offers + [Offer(data, |l.pending|, RefusedQueue)])
      else Offered(l, i, NotFull(data))
    case (Rates(_, allowed), NotFull(data)) =>
      if allowed then Offered(l, i, Admitted(data))
      else Offered(l, i, Resting).(offers := l.offers + [Offer(data, |l.pending|, RefusedRate)])
    case (Appends(_), Admitted(data)) =>
      Offered(l, i, Appended).(pending := l.pending + [data], accepted := l.accepted + [data],
                               offers := l.offers + [Offer(data, |l.pending|, Accepted)])
    case (Signals(_), Appended) => Offered(l, i, Resting).(wake := true)
    case _ => l
  }

  function LoopStep(l: Lane, s: Step): Lane
    requires !(s.Checks? || s.Rates? || s.Appends? || s.Signals?)
  {
    match (s, l.loop)
    case (Looks, Looking) =>
      if l.pending == [] then l.(loop := Waiting) else l.(loop := Handling(l.pending[0]), pending := l.pending[1..])
    case (Wakes, Waiting) => if l.wake then l.(wake := false, loop := Looking) else l
    case (SeesDone, Waiting) => if l.done then l.(loop := Stopped) else l
    case (Handled(ended), Handling(data)) =>
      l.(handled := l.handled + [data], loop := if ended || l.done then Stopped else Looking)
    case (Cancels, _) => l.(done := true)
    case _ => l
  }

  function Next(l: Lane, s: Step): Lane {
    if s.Checks? || s.Rates? || s.Appends? || s.Signals? then
      if s.i < |l.offering| then OfferStep(l, s.i, s) else l
    else LoopStep(l, s)
  }

  function Run(l: Lane, steps: seq<Step>): Lane
    decreases |steps|
  {
    if steps == [] then l else Run(Next(l, steps[0]), steps[1..])
  }

  function NewLane(capacity: nat, offerers: nat): Lane {
    Lane(capacity, [], false, seq(offerers, _ => Resting), Looking, false, [], [], [])
  }

  // --- What every run keeps ---

  predicate Passed(o: Offering) { o.NotFull? || o.Admitted? }

  /** How many offers were told there is room and have not appended yet. */
  function Promised(os: seq<Offering>): (n: nat)
    ensures n <= |os|
  {
    if os == [] then 0 else Promised(os[..|os| - 1]) + if Passed(os[|os| - 1]) then 1 else 0
  }

  lemma {:induction false} PromisedChanges(os: seq<Offering>, i: nat, o: Offering)
    requires i < |os|
    ensures Promised(os[i := o]) + (if Passed(os[i]) then 1 else 0) == Promised(os) + if Passed(o) then 1 else 0
  {
    var last := |os| - 1;
    if i == last {
      assert os[i := o][..last] == os[..last];
    } else {
      assert os[i := o][..last] == os[..last][i := o];
      PromisedChanges(os[..last], i, o);
    }
  }

  function InHand(l: Lane): seq<Message> { if l.loop.Handling? then [l.loop.data] else [] }

  function AcceptedOf(offers: seq<Offer>): seq<Message> {
    if offers == [] then []
    else AcceptedOf(offers[..|offers| - 1])
         + if offers[|offers| - 1].verdict.Accepted? then [offers[|offers| - 1].data] else []
  }

  /** The messages handled, in hand and pending are those accepted, in order. */
  predicate InOrder(l: Lane) {
    l.handled + InHand(l) + l.pending == l.accepted && l.accepted == AcceptedOf(l.offers)
  }

  /** With n offering goroutines a lane holds at most n - 1 messages over its capacity, and
      a message is refused for room only when the lane was full. */
  predicate WithinCapacity(l: Lane) {
    && |l.pending| + Promised(l.offering) <= l.capacity + |l.offering| - 1
    && forall k :: 0 <= k < |l.offers| && l.offers[k].verdict.RefusedQueue? ==> l.offers[k].length >= l.capacity
  }

  /** A loop that waits while messages are pending has its signal, or someone about to send it. */
  predicate NoLostWakeup(l: Lane) {
    l.loop.Waiting? && l.pending != [] ==> l.wake || exists i :: 0 <= i < |l.offering| && l.offering[i].Appended?
  }

  predicate Good(l: Lane) { l.capacity >= 1 && InOrder(l) && WithinCapacity(l) && NoLostWakeup(l) }

  lemma {:induction false} NobodyPromised(os: seq<Offering>)
    requires forall i :: 0 <= i < |os| ==> os[i].Resting?
    ensures Promised(os) == 0
  {
    if os != [] {
      NobodyPromised(os[..|os| - 1]);
    }
  }

  lemma NewLaneIsGood(capacity: nat, offerers: nat)
    requires capacity >= 1
    ensures Good(NewLane(capacity, offerers))
  {
    NobodyPromised(NewLane(capacity, offerers).offering);
  }

  lemma OffersGrow(offers: seq<Offer>, o: Offer)
    ensures AcceptedOf(offers + [o]) == AcceptedOf(offers) + if o.verdict.Accepted? then [o.data] else []
  {
    assert (offers + [o])[..|offers|] == offers;
  }

  /** A goroutine's move, with what it adds to pending, keeps the bound when it promises
      no more than it did, or the lane had room when it was told so. */
  lemma MoveKeepsCapacity(l: Lane, i: nat, to: Offering, more: seq<Message>)
    requires WithinCapacity(l) && i < |l.offering|
    requires |more| + (if Passed(to) then 1 else 0) <= (if Passed(l.offering[i]) then 1 else 0) || (more == [] && |l.pending| < l.capacity)
    ensures WithinCapacity(Offered(l, i, to).(pending := l.pending + more))
  {
    PromisedChanges(l.offering, i, to);
  }

  lemma CheckKeepsCapacity(l: Lane, i: nat, data: Message)
    requires WithinCapacity(l) && i < |l.offering| && l.offering[i].Resting?
    ensures WithinCapacity(OfferStep(l, i, Checks(i, data)))
  {
    if |l.pending| < l.capacity {
      MoveKeepsCapacity(l, i, NotFull(data), []);
      assert l.pending + [] == l.pending;
    }
  }

  lemma RateKeepsCapacity(l: Lane, i: nat, allowed: bool)
    requires WithinCapacity(l) && i < |l.offering| && l.offering[i].NotFull?
    ensures WithinCapacity(OfferStep(l, i, Rates(i, allowed)))
  {
    MoveKeepsCapacity(l, i, if allowed then Admitted(l.offering[i].data) else Resting, []);
    assert l.pending + [] == l.pending;
  }

  lemma AppendKeepsCapacity(l: Lane, i: nat)
    requires WithinCapacity(l) && i < |l.offering| && l.offering[i].Admitted?
    ensures WithinCapacity(OfferStep(l, i, Appends(i)))
  {
    MoveKeepsCapacity(l, i, Appended, [l.offering[i].data]);
  }

  lemma SignalKeepsCapacity(l: Lane, i: nat)
    requires WithinCapacity(l) && i < |l.offering| && l.offering[i].Appended?
    ensures WithinCapacity(OfferStep(l, i, Signals(i)))
  {
    MoveKeepsCapacity(l, i, Resting, []);
    assert l.pending + [] == l.pending;
  }

  lemma OfferStepKeepsCapacity(l: Lane, i: nat, s: Step)
    requires Good(l) && i < |l.offering| && (s.Checks? || s.Rates? || s.Appends? || s.Signals?)
    ensures WithinCapacity(OfferStep(l, i, s))
  {
    match (s, l.offering[i])
    case (Checks(_, data), Resting) => CheckKeepsCapacity(l, i, data);
    case (Rates(_, allowed), NotFull(_)) => RateKeepsCapacity(l, i, allowed);
    case (Appends(_), Admitted(_)) => AppendKeepsCapacity(l, i);
    case (Signals(_), Appended) => SignalKeepsCapacity(l, i);
    case _ =>
  }

  lemma AppendKeepsOrder(l: Lane, i: nat)
    requires Good(l) && i < |l.offering| && l.offering[i].Admitted?
    ensures InOrder(OfferStep(l, i, Appends(i))) && NoLostWakeup(OfferStep(l, i, Appends(i)))
  {
    var t, data := OfferStep(l, i, Appends(i)), l.offering[i].data;
    OffersGrow(l.offers, Offer(data, |l.pending|, Accepted));
    assert t.offering[i].Appended?;
    assert l.handled + InHand(l) + (l.pending + [data]) == l.handled + InHand(l) + l.pending + [data];
  }

  /** A goroutine about to signal is not one that checks or is rated. */
  lemma OthersKeepWakeup(l: Lane, i: nat, to: Offering)
    requires i < |l.offering| && NoLostWakeup(l) && (l.offering[i].Appended? ==> l.wake)
    ensures NoLostWakeup(Offered(l, i, to))
  {
    if l.loop.Waiting? && l.pending != [] && !l.wake {
      var j :| 0 <= j < |l.offering| && l.offering[j].Appended?;
      assert Offered(l, i, to).offering[j].Appended?;
    }
  }

  lemma RefusalKeepsOrder(l: Lane, o: Offer)
    requires InOrder(l) && !o.verdict.Accepted?
    ensures InOrder(l.(offers := l.offers + [o]))
  {
    OffersGrow(l.offers, o);
  }

  lemma CheckKeepsOrder(l: Lane, i: nat, data: Message)
    requires Good(l) && i < |l.offering| && l.offering[i].Resting?
    ensures InOrder(OfferStep(l, i, Checks(i, data))) && NoLostWakeup(OfferStep(l, i, Checks(i, data)))
  {
    RefusalKeepsOrder(l, Offer(data, |l.pending|, RefusedQueue));
    OthersKeepWakeup(l, i, NotFull(data));
  }

  lemma RateKeepsOrder(l: Lane, i: nat, allowed: bool)
    requires Good(l) && i < |l.offering| && l.offering[i].NotFull?
    ensures InOrder(OfferStep(l, i, Rates(i, allowed))) && NoLostWakeup(OfferStep(l, i, Rates(i, allowed)))
  {
    OthersKeepWakeup(l, i, if allowed then Admitted(l.offering[i].data) else Resting);
    RefusalKeepsOrder(l, Offer(l.offering[i].data, |l.pending|, RefusedRate));
  }

  lemma SignalKeepsOrder(l: Lane, i: nat)
    requires Good(l) && i < |l.offering| && l.offering[i].Appended?
    ensures InOrder(OfferStep(l, i, Signals(i))) && NoLostWakeup(OfferStep(l, i, Signals(i)))
  {
  }

  lemma OfferStepKeepsOrder(l: Lane, i: nat, s: Step)
    requires Good(l) && i < |l.offering| && (s.Checks? || s.Rates? || s.Appends? || s.Signals?) && s.i == i
    ensures InOrder(OfferStep(l, i, s)) && NoLostWakeup(OfferStep(l, i, s))
  {
    match (s, l.offering[i])
    case (Checks(_, data), Resting) => CheckKeepsOrder(l, i, data);
    case (Rates(_, allowed), NotFull(_)) => RateKeepsOrder(l, i, allowed);
    case (Appends(_), Admitted(_)) => AppendKeepsOrder(l, i);
    case (Signals(_), Appended) => SignalKeepsOrder(l, i);
    case _ =>
  }

  lemma LoopStepKeepsGood(l: Lane, s: Step)
    requires Good(l) && !(s.Checks? || s.Rates? || s.Appends? || s.Signals?)
    ensures Good(LoopStep(l, s)) && LoopStep(l, s).capacity == l.capacity && |LoopStep(l, s).offering| == |l.offering|
  {
  }

  lemma NextKeepsGood(l: Lane, s: Step)
    requires Good(l)
    ensures Good(Next(l, s)) && Next(l, s).capacity == l.capacity && |Next(l, s).offering| == |l.offering|
  {
    if s.Checks? || s.Rates? || s.Appends? || s.Signals? {
      if s.i < |l.offering| { OfferStepKeepsGood(l, s.i, s); }
    } else {
      LoopStepKeepsGood(l, s);
    }
  }

  lemma OfferStepKeepsGood(l: Lane, i: nat, s: Step)
    requires Good(l) && i < |l.offering| && (s.Checks? || s.Rates? || s.Appends? || s.Signals?) && s.i == i
    ensures var t := OfferStep(l, i, s); Good(t) && t.capacity == l.capacity && |t.offering| == |l.offering|
  {
    OfferStepKeepsCapacity(l, i, s);
    OfferStepKeepsOrder(l, i, s);
    SameShape(l, i, s);
  }

  lemma SameShape(l: Lane, i: nat, s: Step)
    requires i < |l.offering| && (s.Checks? || s.Rates? || s.Appends? || s.Signals?)
    ensures OfferStep(l, i, s).capacity == l.capacity && |OfferStep(l, i, s).offering| == |l.offering|
  {
  }

  /** In every interleaving: the messages handled are a prefix of those accepted, in order;
      the lane holds no more than it may; no wakeup is lost. */
  lemma {:induction false} EveryRunIsGood(l: Lane, steps: seq<Step>)
    requires Good(l)
    ensures var z := Run(l, steps);
            Good(z) && z.capacity == l.capacity && |z.offering| == |l.offering| && z.handled <= z.accepted
    decreases |steps|
  {
    if steps == [] {
      assert l.accepted == l.handled + (InHand(l) + l.pending);
    } else {
      NextKeepsGood(l, steps[0]);
      EveryRunIsGood(Next(l, steps[0]), steps[1..]);
    }
  }

  // --- The capacity holds in every run exactly when one goroutine offers ---

  lemma {:induction false} RunsJoin(l: Lane, a: seq<Step>, b: seq<Step>)
    ensures Run(l, a + b) == Run(Run(l, a), b)
    decreases |a|
  {
    if a == [] {
      assert a + b == b;
    } else {
      assert (a + b)[1..] == a[1..] + b;
      RunsJoin(Next(l, a[0]), a[1..], b);
    }
  }

  function OfferSteps(i: nat, data: Message): seq<Step> { [Checks(i, data), Rates(i, true), Appends(i), Signals(i)] }

  lemma {:induction false} Fills(l: Lane, data: Message, k: nat) returns (steps: seq<Step>)
    requires 0 < |l.offering| && l.offering[0].Resting? && |l.pending| + k <= l.capacity
    ensures var z := Run(l, steps); |z.pending| == |l.pending| + k && z.offering == l.offering && z.capacity == l.capacity
    decreases k
  {
    if k == 0 {
      steps := [];
    } else {
      var first := OfferSteps(0, data);
      var checked := Next(l, Checks(0, data));
      var rated := Next(checked, Rates(0, true));
      var appended := Next(rated, Appends(0));
      var z := Next(appended, Signals(0));
      assert z.offering == l.offering;
      assert Run(l, first) == z by { FourSteps(l, 0, data); }
      var rest := Fills(z, data, k - 1);
      RunsJoin(l, first, rest);
      steps := first + rest;
    }
  }

  lemma FourSteps(l: Lane, i: nat, data: Message)
    ensures Run(l, OfferSteps(i, data)) == Next(Next(Next(Next(l, Checks(i, data)), Rates(i, true)), Appends(i)), Signals(i))
  {
    var rated := Next(Next(l, Checks(i, data)), Rates(i, true));
    RunsJoin(l, [Checks(i, data), Rates(i, true)], [Appends(i), Signals(i)]);
    assert OfferSteps(i, data) == [Checks(i, data), Rates(i, true)] + [Appends(i), Signals(i)];
    TwoSteps(l, Checks(i, data), Rates(i, true));
    TwoSteps(rated, Appends(i), Signals(i));
  }

  lemma TwoSteps(l: Lane, a: Step, b: Step)
    ensures Run(l, [a, b]) == Next(Next(l, a), b)
  {
    assert [a, b][1..] == [b];
    assert [b][1..] == [];
    assert Run(Next(l, a), [b]) == Next(Next(l, a), b);
  }

  /** Two goroutines that both saw room both append. */
  lemma TwoOverfill(l: Lane, data: Message) returns (steps: seq<Step>)
    requires |l.offering| >= 2 && l.offering[0].Resting? && l.offering[1].Resting? && |l.pending| == l.capacity - 1
    ensures |Run(l, steps).pending| == l.capacity + 1
  {
    var a := Next(Next(l, Checks(0, data)), Rates(0, true));
    var b := Next(Next(a, Checks(1, data)), Rates(1, true));
    assert b.offering == l.offering[0 := Admitted(data)][1 := Admitted(data)];
    TwoSteps(l, Checks(0, data), Rates(0, true));
    TwoSteps(a, Checks(1, data), Rates(1, true));
    TwoSteps(b, Appends(0), Appends(1));
    RunsJoin(l, [Checks(0, data), Rates(0, true)], [Checks(1, data), Rates(1, true)]);
    RunsJoin(l, [Checks(0, data), Rates(0, true)] + [Checks(1, data), Rates(1, true)], [Appends(0), Appends(1)]);
    steps := [Checks(0, data), Rates(0, true)] + [Checks(1, data), Rates(1, true)] + [Appends(0), Appends(1)];
  }

  /** The check and the append are separate lock sections, so the capacity bounds the lane
      in every run if and only if at most one goroutine offers to it, as Dispatch does. */
  lemma CapacityHoldsIffOneOffers(capacity: nat, offerers: nat)
    requires capacity >= 1
    ensures (forall steps :: |Run(NewLane(capacity, offerers), steps).pending| <= capacity) <==> offerers <= 1
  {
    var l := NewLane(capacity, offerers);
    NewLaneIsGood(capacity, offerers);
    if offerers <= 1 {
      forall steps
        ensures |Run(l, steps).pending| <= capacity
      {
        EveryRunIsGood(l, steps);
      }
    } else {
      var fill := Fills(l, "", capacity - 1);
      var over := TwoOverfill(Run(l, fill), "");
      RunsJoin(l, fill, over);
    }
  }

  // --- Left alone, the loop handles everything ---

  function Rank(l: Lane): nat {
    4 * |l.pending| + (if l.wake then 2 else 0) + match l.loop
    case Handling(_) => 3
    case Looking => 1
    case _ => 0
  }

  /** The loop's own steps until it waits with nothing to wake it. */
  function DrainSteps(l: Lane): seq<Step>
    decreases Rank(l)
  {
    match l.loop
    case Looking => [Looks] + DrainSteps(Next(l, Looks))
    case Handling(_) => if l.done then [] else [Handled(false)] + DrainSteps(Next(l, Handled(false)))
    case Waiting => if l.wake then [Wakes] + DrainSteps(Next(l, Wakes)) else []
    case Stopped => []
  }

  lemma {:induction false} LoopDrains(l: Lane)
    requires Good(l) && !l.done && !l.loop.Stopped? && forall i :: 0 <= i < |l.offering| ==> !l.offering[i].Appended?
    ensures Run(l, DrainSteps(l)).handled == l.accepted
    decreases Rank(l)
  {
    var steps := DrainSteps(l);
    if steps != [] {
      NextKeepsGood(l, steps[0]);
      var m := Next(l, steps[0]);
      assert steps == [steps[0]] + DrainSteps(m);
      assert steps[1..] == DrainSteps(m);
      LoopDrains(m);
    }
  }

  /** Every offering goroutine that appended sends its signal. */
  function SignalSteps(n: nat): seq<Step> { if n == 0 then [] else SignalSteps(n - 1) + [Signals(n - 1)] }

  lemma {:induction false} AllSignal(l: Lane, n: nat)
    requires Good(l) && n <= |l.offering|
    ensures var z := Run(l, SignalSteps(n));
            && Good(z) && |z.offering| == |l.offering| && z.accepted == l.accepted && z.done == l.done && z.loop == l.loop
            && forall i :: 0 <= i < n ==> !z.offering[i].Appended?
  {
    if n > 0 {
      AllSignal(l, n - 1);
      var y := Run(l, SignalSteps(n - 1));
      RunsJoin(l, SignalSteps(n - 1), [Signals(n - 1)]);
      OneSignals(y, n - 1);
    }
  }

  lemma OneSignals(l: Lane, i: nat)
    requires Good(l) && i < |l.offering|
    ensures var z := Run(l, [Signals(i)]);
            && Good(z) && |z.offering| == |l.offering| && z.accepted == l.accepted && z.done == l.done && z.loop == l.loop
            && !z.offering[i].Appended? && forall j :: 0 <= j < |l.offering| && j != i ==> z.offering[j] == l.offering[j]
  {
    NextKeepsGood(l, Signals(i));
    var z := Next(l, Signals(i));
    OneStep(l, Signals(i));
  }

  /** From every reachable state in which nothing ended the lane, whatever offers are under
      way, the signals of those that appended and the loop's own steps handle every
      accepted message, in order. */
  lemma LoopHandlesEverything(l: Lane)
    requires Good(l) && !l.done && !l.loop.Stopped?
    ensures var signalled := Run(l, SignalSteps(|l.offering|));
            Run(l, SignalSteps(|l.offering|) + DrainSteps(signalled)).handled == l.accepted
  {
    AllSignal(l, |l.offering|);
    var signalled := Run(l, SignalSteps(|l.offering|));
    LoopDrains(signalled);
    RunsJoin(l, SignalSteps(|l.offering|), DrainSteps(signalled));
  }

  // --- What the rate limit lets through is what is accepted ---

  /** How many goroutines were let through and have not appended yet. */
  function Admits(os: seq<Offering>): (n: nat)
    ensures n <= |os|
  {
    if os == [] then 0 else Admits(os[..|os| - 1]) + if os[|os| - 1].Admitted? then 1 else 0
  }

  lemma {:induction false} AdmitsChanges(os: seq<Offering>, i: nat, o: Offering)
    requires i < |os|
    ensures Admits(os[i := o]) + (if os[i].Admitted? then 1 else 0) == Admits(os) + if o.Admitted? then 1 else 0
  {
    var last := |os| - 1;
    if i == last {
      assert os[i := o][..last] == os[..last];
    } else {
      assert os[i := o][..last] == os[..last][i := o];
      AdmitsChanges(os[..last], i, o);
    }
  }

  function RateRefusals(offers: seq<Offer>): nat {
    if offers == [] then 0
    else RateRefusals(offers[..|offers| - 1]) + if offers[|offers| - 1].verdict.RefusedRate? then 1 else 0
  }

  lemma RefusalsGrow(offers: seq<Offer>, o: Offer)
    ensures RateRefusals(offers + [o]) == RateRefusals(offers) + if o.verdict.RefusedRate? then 1 else 0
  {
    assert (offers + [o])[..|offers|] == offers;
  }

  /** Whether a step is the rate limit's answer to a goroutine asking it. */
  predicate Answers(l: Lane, s: Step, allowed: bool) {
    s.Rates? && s.i < |l.offering| && l.offering[s.i].NotFull? && s.allowed == allowed
  }

  /** How often the rate limit answered so in a run. */
  function Answered(l: Lane, steps: seq<Step>, allowed: bool): nat
    decreases |steps|
  {
    if steps == [] then 0 else (if Answers(l, steps[0], allowed) then 1 else 0) + Answered(Next(l, steps[0]), steps[1..], allowed)
  }

  /** What a step adds to what was accepted, admitted and refused. */
  predicate Rated(l: Lane, m: Lane, let: nat, barred: nat) {
    && |m.accepted| + Admits(m.offering) == |l.accepted| + Admits(l.offering) + let
    && RateRefusals(m.offers) == RateRefusals(l.offers) + barred
  }

  lemma CheckIsRated(l: Lane, i: nat, data: Message)
    requires i < |l.offering| && l.offering[i].Resting?
    ensures Rated(l, OfferStep(l, i, Checks(i, data)), 0, 0)
  {
    AdmitsChanges(l.offering, i, NotFull(data));
    RefusalsGrow(l.offers, Offer(data, |l.pending|, RefusedQueue));
  }

  lemma RateIsRated(l: Lane, i: nat, allowed: bool)
    requires i < |l.offering| && l.offering[i].NotFull?
    ensures Rated(l, OfferStep(l, i, Rates(i, allowed)), if allowed then 1 else 0, if allowed then 0 else 1)
  {
    var data := l.offering[i].data;
    AdmitsChanges(l.offering, i, if allowed then Admitted(data) else Resting);
    RefusalsGrow(l.offers, Offer(data, |l.pending|, RefusedRate));
  }

  lemma AppendIsRated(l: Lane, i: nat)
    requires i < |l.offering| && l.offering[i].Admitted?
    ensures Rated(l, OfferStep(l, i, Appends(i)), 0, 0)
  {
    AdmitsChanges(l.offering, i, Appended);
    RefusalsGrow(l.offers, Offer(l.offering[i].data, |l.pending|, Accepted));
  }

  lemma SignalIsRated(l: Lane, i: nat)
    requires i < |l.offering| && l.offering[i].Appended?
    ensures Rated(l, OfferStep(l, i, Signals(i)), 0, 0)
  {
    AdmitsChanges(l.offering, i, Resting);
  }

  lemma OfferStepIsRated(l: Lane, i: nat, s: Step)
    requires i < |l.offering| && (s.Checks? || s.Rates? || s.Appends? || s.Signals?) && s.i == i
    ensures Rated(l, OfferStep(l, i, s), if Answers(l, s, true) then 1 else 0, if Answers(l, s, false) then 1 else 0)
  {
    match (s, l.offering[i])
    case (Checks(_, data), Resting) => CheckIsRated(l, i, data);
    case (Rates(_, allowed), NotFull(_)) => RateIsRated(l, i, allowed);
    case (Appends(_), Admitted(_)) => AppendIsRated(l, i);
    case (Signals(_), Appended) => SignalIsRated(l, i);
    case _ =>
  }

  lemma StepIsRated(l: Lane, s: Step)
    ensures Rated(l, Next(l, s), if Answers(l, s, true) then 1 else 0, if Answers(l, s, false) then 1 else 0)
  {
    if (s.Checks? || s.Rates? || s.Appends? || s.Signals?) && s.i < |l.offering| {
      OfferStepIsRated(l, s.i, s);
    }
  }

  /** In every run, each message the rate limit lets through is accepted or about to be, and
      nothing else is; and each it refuses, and no other, is refused for its rate. */
  lemma {:induction false} RatedExactly(l: Lane, steps: seq<Step>)
    ensures var z := Run(l, steps);
            && |z.accepted| + Admits(z.offering) == |l.accepted| + Admits(l.offering) + Answered(l, steps, true)
            && RateRefusals(z.offers) == RateRefusals(l.offers) + Answered(l, steps, false)
    decreases |steps|
  {
    if steps != [] {
      StepIsRated(l, steps[0]);
      RatedExactly(Next(l, steps[0]), steps[1..]);
    }
  }

  // --- A handler that ends the connection, or its context, stops the loop ---

  lemma {:induction false} StoppedHandlesNoMore(l: Lane, steps: seq<Step>)
    requires l.loop.Stopped?
    ensures Run(l, steps).loop.Stopped? && Run(l, steps).handled == l.handled
    decreases |steps|
  {
    if steps != [] {
      assert Next(l, steps[0]).loop.Stopped? && Next(l, steps[0]).handled == l.handled;
      StoppedHandlesNoMore(Next(l, steps[0]), steps[1..]);
    }
  }

  /** A message whose handling ends the connection is the last one handled, whatever is
      pending or offered after it. */
  lemma EndingHandlerStops(l: Lane, steps: seq<Step>)
    requires l.loop.Handling?
    ensures Run(Next(l, Handled(true)), steps).handled == l.handled + [l.loop.data]
  {
    StoppedHandlesNoMore(Next(l, Handled(true)), steps);
  }

  /** Once the connection's context is done, at most one more message is handled. */
  lemma {:induction false} DoneHandlesOneMore(l: Lane, steps: seq<Step>)
    requires l.done
    ensures |Run(l, steps).handled| <= |l.handled| + if l.loop.Stopped? then 0 else 1
    decreases |steps|
  {
    if steps != [] {
      var m := Next(l, steps[0]);
      assert m.done && |m.handled| + (if m.loop.Stopped? then 0 else 1) <= |l.handled| + (if l.loop.Stopped? then 0 else 1);
      DoneHandlesOneMore(m, steps[1..]);
    }
  }

  /** The loop's own steps once its context is done. */
  function StopSteps(l: Lane): seq<Step> {
    match l.loop
    case Looking => if l.pending == [] then [Looks, SeesDone] else [Looks, Handled(false)]
    case Handling(_) => [Handled(false)]
    case Waiting => [SeesDone]
    case Stopped => []
  }

  /** A cancelled context stops the loop wherever it stands: it handles at most one message
      more in any run, and its own next steps stop it. */
  lemma CancelledLoopStops(l: Lane, steps: seq<Step>)
    ensures var c := Next(l, Cancels);
            && |Run(c, steps).handled| <= |l.handled| + 1
            && Run(c, StopSteps(l)).loop.Stopped?
  {
    var c := Next(l, Cancels);
    DoneHandlesOneMore(c, steps);
    match l.loop
    case Looking =>
      if l.pending == [] { TwoSteps(c, Looks, SeesDone); } else { TwoSteps(c, Looks, Handled(false)); }
    case Handling(_) => OneStep(c, Handled(false));
    case Waiting => OneStep(c, SeesDone);
    case Stopped =>
  }

  lemma OneStep(l: Lane, s: Step)
    ensures Run(l, [s]) == Next(l, s)
  {
    assert [s][1..] == [] && Run(Next(l, s), []) == Next(l, s);
  }
}
