/** One served connection: the loops, the keepalive and the shutdown signal against the
    goroutine that runs serve (api/internal/live/serve.go). */
module LiveServe {

  import Counting

  datatype End = ClosedBy(cause: nat) | ServerShutdown | ServerFailure

  /** What a loop or the keepalive returned. */
  datatype Result = Result(end: End, ended: bool)

  /** A goroutine runs until it returns its result, which serve receives. */
  datatype Worker = Running | Sent(result: Result) | Received(result: Result)

  /** Where serve stands. */
  datatype Pc = Selecting | Cancelling | Disconnecting | Draining | Logging | AwaitingKeepalive | Finished

  /** What serve received while selecting. */
  datatype Seen = FromLoop(result: Result) | FromKeepalive(result: Result) | ShutdownSeen

  /** queue holds the loops whose results wait in the channel, first sent first. */
  datatype Connection = Connection(
    loops: seq<Worker>, keepalive: Worker, queue: seq<nat>, shutdown: bool, cancelled: bool,
    pc: Pc, end: End, decided: bool, pending: int, aliveStopped: bool,
    seen: seq<Seen>, disconnects: nat, logged: seq<End>)

  datatype Step =
    | LoopReturns(i: nat, loopResult: Result)
    | KeepaliveReturns(aliveResult: Result)
    | ShutsDown
    | TakesLoop
    | TakesKeepalive
    | TakesShutdown
    | Advances

  function Serve(loops: nat): Connection {
    Connection(seq(loops, _ => Running), Running, [], false, false,
               Selecting, ServerFailure, false, loops, false, [], 0, [])
  }

  /** Whether serve is still in its select loop. */
  predicate Selects(c: Connection) { c.pc.Selecting? && !c.decided && c.pending > 0 }

  predicate Enabled(c: Connection, s: Step) {
    match s
    case LoopReturns(i, _) => i < |c.loops| && c.loops[i].Running?
    case KeepaliveReturns(_) => c.keepalive.Running?
    case ShutsDown => !c.shutdown
    case TakesLoop => (Selects(c) || (c.pc.Draining? && c.pending > 0)) && c.queue != []
    case TakesKeepalive => (Selects(c) || c.pc.AwaitingKeepalive?) && !c.aliveStopped && c.keepalive.Sent?
    case TakesShutdown => Selects(c) && c.shutdown
    case Advances => CanAdvance(c)
  }

  predicate CanAdvance(c: Connection) {
    match c.pc
    case Selecting => !Selects(c)
    case Draining => c.pending <= 0
    case AwaitingKeepalive => c.aliveStopped
    case Finished => false
    case _ => true
  }

  function Decide(c: Connection, seen: Seen): Connection {
    var c := c.(seen := c.seen + [seen]);
    match seen
    case FromLoop(r) => c.(end := r.end, decided := r.ended)
    case FromKeepalive(r) => c.(end := r.end, decided := r.ended)
    case ShutdownSeen => c.(end := ServerShutdown, decided := true)
  }

  function TakeLoop(c: Connection): Connection
    requires c.queue != []
  {
    var i := c.queue[0];
    if i < |c.loops| && c.loops[i].Sent? then
      var r := c.loops[i].result;
      var taken := c.(queue := c.queue[1..], loops := c.loops[i := Received(r)], pending := c.pending - 1);
      if c.pc.Selecting? then Decide(taken, FromLoop(r)) else taken
    else c
  }

  function TakeKeepalive(c: Connection): Connection
    requires c.keepalive.Sent?
  {
    var r := c.keepalive.result;
    var taken := c.(keepalive := Received(r), aliveStopped := true);
    if c.pc.Selecting? then Decide(taken, FromKeepalive(r)) else taken
  }

  function Advance(c: Connection): Connection {
    match c.pc
    case Selecting => c.(pc := Cancelling, end := if c.decided then c.end else ServerFailure)
    case Cancelling => c.(pc := Disconnecting, cancelled := true)
    case Disconnecting => c.(pc := Draining, disconnects := c.disconnects + 1)
    case Draining => c.(pc := Logging)
    case Logging => c.(pc := AwaitingKeepalive, logged := c.logged + [c.end])
    case AwaitingKeepalive => c.(pc := Finished)
    case Finished => c
  }

  function Next(c: Connection, s: Step): Connection
    requires Enabled(c, s)
  {
    match s
    case LoopReturns(i, r) => c.(loops := c.loops[i := Sent(r)], queue := c.queue + [i])
    case KeepaliveReturns(r) => c.(keepalive := Sent(r))
    case ShutsDown => c.(shutdown := true)
    case TakesLoop => TakeLoop(c)
    case TakesKeepalive => TakeKeepalive(c)
    case TakesShutdown => Decide(c, ShutdownSeen)
    case Advances => Advance(c)
  }

  /** Every step is one that could happen. */
  predicate IsRun(c: Connection, steps: seq<Step>)
    decreases |steps|
  {
    steps == [] || (Enabled(c, steps[0]) && IsRun(Next(c, steps[0]), steps[1..]))
  }

  function Run(c: Connection, steps: seq<Step>): Connection
    requires IsRun(c, steps)
    decreases |steps|
  {
    if steps == [] then c else Run(Next(c, steps[0]), steps[1..])
  }

  // --- How a connection ends ---

  predicate Decides(s: Seen) { s.ShutdownSeen? || s.result.ended }

  function EndOf(s: Seen): End { if s.ShutdownSeen? then ServerShutdown else s.result.end }

  /** The end of the first thing received that ends the connection; a failure when nothing did. */
  function FirstEnd(seen: seq<Seen>): End {
    if seen == [] then ServerFailure else if Decides(seen[0]) then EndOf(seen[0]) else FirstEnd(seen[1..])
  }

  lemma {:induction false} FirstEndOfOne(seen: seq<Seen>, s: Seen)
    requires forall k :: 0 <= k < |seen| ==> !Decides(seen[k])
    ensures FirstEnd(seen + [s]) == if Decides(s) then EndOf(s) else ServerFailure
  {
    if seen == [] {
      assert (seen + [s])[1..] == [];
    } else {
      assert (seen + [s])[1..] == seen[1..] + [s];
      FirstEndOfOne(seen[1..], s);
    }
  }

  // --- What every run keeps ---

  function Unreceived(loops: seq<Worker>): (n: nat)
    ensures n <= |loops|
  {
    if loops == [] then 0
    else Unreceived(loops[..|loops| - 1]) + if loops[|loops| - 1].Received? then 0 else 1
  }

  lemma {:induction false} UnreceivedChanges(loops: seq<Worker>, i: nat, w: Worker)
    requires i < |loops|
    ensures Unreceived(loops[i := w]) + (if loops[i].Received? then 0 else 1)
         == Unreceived(loops) + (if w.Received? then 0 else 1)
  {
    var last := |loops| - 1;
    if i == last {
      assert loops[i := w][..last] == loops[..last];
    } else {
      assert loops[i := w][..last] == loops[..last][i := w];
      UnreceivedChanges(loops[..last], i, w);
    }
  }

  lemma {:induction false} SomeoneUnreceived(loops: seq<Worker>) returns (i: nat)
    requires Unreceived(loops) > 0
    ensures i < |loops| && !loops[i].Received?
  {
    var last := |loops| - 1;
    if !loops[last].Received? {
      i := last;
    } else {
      i := SomeoneUnreceived(loops[..last]);
    }
  }

  /** The channel holds each sent result once, so no loop ever waits to send one. */
  predicate QueueOk(c: Connection) {
    && (forall k :: 0 <= k < |c.queue| ==> c.queue[k] < |c.loops| && c.loops[c.queue[k]].Sent?)
    && (forall j, k :: 0 <= j < k < |c.queue| ==> c.queue[j] != c.queue[k])
    && (forall i :: 0 <= i < |c.loops| && c.loops[i].Sent? ==> i in c.queue)
  }

  predicate CountsOk(c: Connection) {
    && c.pending == Unreceived(c.loops)
    && c.aliveStopped == c.keepalive.Received?
    && (c.cancelled <==> !c.pc.Selecting? && !c.pc.Cancelling?)
    && c.disconnects == (if c.pc.Selecting? || c.pc.Cancelling? || c.pc.Disconnecting? then 0 else 1)
    && c.logged == (if c.pc.AwaitingKeepalive? || c.pc.Finished? then [c.end] else [])
    && (c.pc.Logging? || c.pc.AwaitingKeepalive? || c.pc.Finished? ==> c.pending == 0)
    && (c.pc.Finished? ==> c.aliveStopped)
  }

  /** While selecting, the last thing received decided or nothing did; from then on the end
      is that of the first thing received that decides. */
  predicate EndOk(c: Connection) {
    && (forall k :: 0 <= k < |c.seen| - 1 ==> !Decides(c.seen[k]))
    && (c.decided <==> c.seen != [] && Decides(c.seen[|c.seen| - 1]))
    && (c.decided || !c.pc.Selecting? ==> c.end == FirstEnd(c.seen))
  }

  /** What serve received was sent: by the shutdown, the keepalive or one of the loops. */
  predicate SeenOk(c: Connection) {
    forall s :: s in c.seen ==>
      match s
      case ShutdownSeen => c.shutdown
      case FromKeepalive(r) => c.keepalive == Received(r)
      case FromLoop(r) => Received(r) in c.loops
  }

  predicate Good(c: Connection) { QueueOk(c) && CountsOk(c) && EndOk(c) && SeenOk(c) }

  lemma OtherWorkersStay(loops: seq<Worker>, i: nat, w: Worker)
    requires i < |loops| && !loops[i].Received?
    ensures forall x :: x in loops && x.Received? ==> x in loops[i := w]
  {
    forall x | x in loops && x.Received?
      ensures x in loops[i := w]
    {
      var j :| 0 <= j < |loops| && loops[j] == x;
      assert loops[i := w][j] == x;
    }
  }

  lemma TakeLoopKeepsSeen(c: Connection)
    requires Good(c) && Enabled(c, TakesLoop) && c.queue[0] < |c.loops| && c.loops[c.queue[0]].Sent?
    ensures SeenOk(TakeLoop(c))
  {
    var i := c.queue[0];
    var r := c.loops[i].result;
    OtherWorkersStay(c.loops, i, Received(r));
    assert c.loops[i := Received(r)][i] == Received(r);
  }

  lemma LoopReturnsKeepsSeen(c: Connection, i: nat, r: Result)
    requires Good(c) && Enabled(c, LoopReturns(i, r))
    ensures SeenOk(Next(c, LoopReturns(i, r)))
  {
    OtherWorkersStay(c.loops, i, Sent(r));
  }

  lemma {:induction false} AllUnreceived(loops: seq<Worker>)
    requires forall i :: 0 <= i < |loops| ==> loops[i].Running?
    ensures Unreceived(loops) == |loops|
  {
    if loops != [] {
      AllUnreceived(loops[..|loops| - 1]);
    }
  }

  lemma ServeIsGood(loops: nat)
    ensures Good(Serve(loops))
  {
    AllUnreceived(Serve(loops).loops);
  }

  lemma NothingDecided(seen: seq<Seen>)
    requires forall k :: 0 <= k < |seen| ==> !Decides(seen[k])
    ensures FirstEnd(seen) == ServerFailure
  {
    if seen != [] {
      assert seen == seen[..|seen| - 1] + [seen[|seen| - 1]];
      FirstEndOfOne(seen[..|seen| - 1], seen[|seen| - 1]);
    }
  }

  lemma DecideKeepsEnd(c: Connection, seen: Seen)
    requires EndOk(c) && c.pc.Selecting? && !c.decided
    ensures EndOk(Decide(c, seen))
  {
    FirstEndOfOne(c.seen, seen);
  }

  lemma TakeLoopKeepsQueue(c: Connection)
    requires QueueOk(c) && c.queue != []
    ensures c.queue[0] < |c.loops| && c.loops[c.queue[0]].Sent? && QueueOk(TakeLoop(c))
  {
    var i := c.queue[0];
    var t := TakeLoop(c);
    assert c.queue == [i] + t.queue;
    forall j | 0 <= j < |t.loops| && t.loops[j].Sent?
      ensures j in t.queue
    {
      assert j in c.queue && j != i;
    }
  }

  lemma TakeLoopKeepsCounts(c: Connection)
    requires Good(c) && Enabled(c, TakesLoop) && c.queue[0] < |c.loops| && c.loops[c.queue[0]].Sent?
    ensures CountsOk(TakeLoop(c)) && EndOk(TakeLoop(c))
  {
    var i := c.queue[0];
    var r := c.loops[i].result;
    UnreceivedChanges(c.loops, i, Received(r));
    if c.pc.Selecting? {
      DecideKeepsEnd(c.(queue := c.queue[1..], loops := c.loops[i := Received(r)], pending := c.pending - 1), FromLoop(r));
    }
  }

  lemma TakeLoopKeepsGood(c: Connection)
    requires Good(c) && Enabled(c, TakesLoop)
    ensures Good(TakeLoop(c)) && |TakeLoop(c).loops| == |c.loops|
  {
    TakeLoopKeepsQueue(c);
    TakeLoopKeepsCounts(c);
    TakeLoopKeepsSeen(c);
  }

  lemma LoopReturnsKeepsGood(c: Connection, i: nat, r: Result)
    requires Good(c) && Enabled(c, LoopReturns(i, r))
    ensures Good(Next(c, LoopReturns(i, r)))
  {
    var t := Next(c, LoopReturns(i, r));
    UnreceivedChanges(c.loops, i, Sent(r));
    LoopReturnsKeepsSeen(c, i, r);
    assert i !in c.queue;
    forall j | 0 <= j < |t.loops| && t.loops[j].Sent?
      ensures j in t.queue
    {
      assert t.queue[|c.queue|] == i;
      assert j != i ==> j in c.queue;
    }
  }

  lemma AdvanceKeepsGood(c: Connection)
    requires Good(c) && CanAdvance(c)
    ensures Good(Advance(c))
  {
    if c.pc.Selecting? && !c.decided {
      NothingDecided(c.seen);
    }
  }

  lemma TakeKeepaliveKeepsGood(c: Connection)
    requires Good(c) && Enabled(c, TakesKeepalive)
    ensures Good(TakeKeepalive(c))
  {
    if c.pc.Selecting? {
      DecideKeepsEnd(c.(keepalive := Received(c.keepalive.result), aliveStopped := true), FromKeepalive(c.keepalive.result));
    }
  }

  lemma NextKeepsGood(c: Connection, s: Step)
    requires Good(c) && Enabled(c, s)
    ensures Good(Next(c, s)) && |Next(c, s).loops| == |c.loops|
  {
    match s
    case LoopReturns(i, r) => LoopReturnsKeepsGood(c, i, r);
    case TakesLoop => TakeLoopKeepsGood(c);
    case TakesKeepalive => TakeKeepaliveKeepsGood(c);
    case TakesShutdown => DecideKeepsEnd(c, ShutdownSeen);
    case Advances => AdvanceKeepsGood(c);
    case _ =>
  }

  lemma {:induction false} EveryRunIsGood(c: Connection, steps: seq<Step>)
    requires Good(c) && IsRun(c, steps)
    ensures Good(Run(c, steps)) && |Run(c, steps).loops| == |c.loops|
    decreases |steps|
  {
    if steps != [] {
      NextKeepsGood(c, steps[0]);
      EveryRunIsGood(Next(c, steps[0]), steps[1..]);
    }
  }

  /** In whatever order the loops, the keepalive and the shutdown come: disconnect is called
      at most once, only after the rest were cancelled, and one end at most is logged. When
      serve returns, disconnect was called once, every loop's result and the keepalive's was
      received, and the end logged is that of the first thing received that ends it. */
  lemma ServedConnectionEndsOnce(loops: nat, steps: seq<Step>)
    requires IsRun(Serve(loops), steps)
    ensures var c := Run(Serve(loops), steps);
            && c.disconnects <= 1 && |c.logged| <= 1 && (c.disconnects == 1 ==> c.cancelled) && |c.queue| <= loops && SeenOk(c)
            && (c.pc.Finished? ==>
                  && c.disconnects == 1 && c.logged == [FirstEnd(c.seen)]
                  && c.keepalive.Received? && forall i :: 0 <= i < |c.loops| ==> c.loops[i].Received?)
  {
    ServeIsGood(loops);
    EveryRunIsGood(Serve(loops), steps);
    var c := Run(Serve(loops), steps);
    Counting.DistinctFit(c.queue, |c.loops|);
    if c.pc.Finished? {
      NoneUnreceived(c.loops);
    }
  }

  lemma {:induction false} NoneUnreceived(loops: seq<Worker>)
    requires Unreceived(loops) == 0
    ensures forall i :: 0 <= i < |loops| ==> loops[i].Received?
  {
    if loops != [] {
      NoneUnreceived(loops[..|loops| - 1]);
    }
  }

  // --- It ends ---

  function PcRank(pc: Pc): nat {
    match pc
    case Selecting => 6 case Cancelling => 5 case Disconnecting => 4 case Draining => 3
    case Logging => 2 case AwaitingKeepalive => 1 case Finished => 0
  }

  function Left(w: Worker): nat { if w.Running? then 2 else if w.Sent? then 1 else 0 }

  function LeftOf(loops: seq<Worker>): nat {
    if loops == [] then 0 else LeftOf(loops[..|loops| - 1]) + Left(loops[|loops| - 1])
  }

  /** How many steps a connection has left at most. */
  function StepsLeft(c: Connection): nat {
    LeftOf(c.loops) + Left(c.keepalive) + PcRank(c.pc) + (if c.shutdown then 0 else 1)
    + (if c.pc.Selecting? && !c.decided then 1 else 0)
  }

  lemma {:induction false} LeftChanges(loops: seq<Worker>, i: nat, w: Worker)
    requires i < |loops|
    ensures LeftOf(loops[i := w]) + Left(loops[i]) == LeftOf(loops) + Left(w)
  {
    var last := |loops| - 1;
    if i == last {
      assert loops[i := w][..last] == loops[..last];
    } else {
      assert loops[i := w][..last] == loops[..last][i := w];
      LeftChanges(loops[..last], i, w);
    }
  }

  lemma TakingCounts(c: Connection)
    requires Good(c) && Enabled(c, TakesLoop)
    ensures StepsLeft(TakeLoop(c)) < StepsLeft(c)
  {
    LeftChanges(c.loops, c.queue[0], Received(c.loops[c.queue[0]].result));
  }

  lemma EveryStepCounts(c: Connection, s: Step)
    requires Good(c) && Enabled(c, s)
    ensures StepsLeft(Next(c, s)) < StepsLeft(c)
  {
    match s
    case LoopReturns(i, r) => LeftChanges(c.loops, i, Sent(r));
    case TakesLoop => TakingCounts(c);
    case _ =>
  }

  /** No run is longer than its connection's steps. */
  lemma {:induction false} EveryRunEnds(c: Connection, steps: seq<Step>)
    requires Good(c) && IsRun(c, steps)
    ensures |steps| + StepsLeft(Run(c, steps)) <= StepsLeft(c)
    decreases |steps|
  {
    if steps != [] {
      NextKeepsGood(c, steps[0]);
      EveryStepCounts(c, steps[0]);
      EveryRunEnds(Next(c, steps[0]), steps[1..]);
    }
  }

  predicate OfServe(s: Step) { s.TakesLoop? || s.TakesKeepalive? || s.TakesShutdown? || s.Advances? }

  /** Serve waits only for a loop or the keepalive still running, which it has cancelled
      unless nothing ended the connection yet; so it returns once the cancelled loops do. */
  lemma ServeWaitsForNobodyElse(c: Connection)
    requires Good(c) && !c.pc.Finished? && forall s :: Enabled(c, s) ==> !OfServe(s)
    ensures (exists i :: 0 <= i < |c.loops| && c.loops[i].Running?) || c.keepalive.Running?
    ensures c.cancelled || (Selects(c) && !c.shutdown)
  {
    assert !Enabled(c, Advances) && !Enabled(c, TakesLoop) && !Enabled(c, TakesKeepalive) && !Enabled(c, TakesShutdown);
    if Selects(c) || c.pc.Draining? {
      var i := SomeoneUnreceived(c.loops);
      assert c.loops[i].Sent? ==> i in c.queue;
    }
  }
}
