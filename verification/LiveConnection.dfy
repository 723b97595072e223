/** What one player's or admin's connection is sent: its Runtime streams, the answers of its
    lanes and its closing, as interleaved loops (api/play/live_connection.go,
    api/play/player_join.go). */
module LiveConnection {

  /** A message the client got. */
  datatype Frame = Lobby | Started | View | Roster | Answer | LobbyClosed | SessionEnded

  /** How a write ended: the client got the message; it got it but was dropped as too slow;
      it did not get it. */
  datatype Written = Delivered | Dropped | Failed

  /** sendSession: in its lobby updates, due to send the start, past that write, past setting
      started, in its views, past its last message, past closing sessionSent, done. */
  datatype SessionLoop = Lobbies | StartDue | StartWritten | StartFlagged | Views | Leaving | SentClosed | SessionGone

  datatype RosterLoop = AwaitingStart | Rostering | RosterLeaving | RosterGone

  /** closeOnRuntimeEnd; tell says whether the Session ended, so the client is told. */
  datatype Closer =
    | AwaitingEnd
    | AwaitingStreams(tell: bool)
    | AwaitingLock(tell: bool)
    | Telling(tell: bool)
    | Closing
    | Unlocking
    | CloserGone

  /** gaveUp is set when the check after the start's write finds ctx done, so that started
      is never set. answering holds, per lane, whether it read-holds the answering lock; the closer
      write-holds it from Telling to Unlocking. closed is the socket's. */
  datatype Connection = Connection(
    session: SessionLoop, roster: RosterLoop, closer: Closer, answering: seq<bool>,
    streams: int, started: bool, gaveUp: bool, startSent: bool, sessionSent: bool,
    cancelled: bool, closed: bool, sent: seq<Frame>)

  datatype SessionStep =
    | SendsLobby(out: Written) | LobbyEnds | StartUnavailable | SendsStart(out: Written)
    | ChecksStart | SignalsStart | SendsView(out: Written) | ViewsEnd | ClosesSent | SessionDone

  datatype RosterStep = RosterWakes | RosterCancelled | SendsRoster(out: Written) | RosterEnds | RosterDone

  datatype LaneStep = LaneLocks | LaneAnswers(out: Written) | LaneUnlocks

  datatype CloserStep =
    | RuntimeEnds(tell: bool) | StreamsDelivered | CloserCancelled | CloserLocks
    | CloserTells(out: Written) | CloserCloses | CloserUnlocks

  datatype Step =
    | OfSession(session: SessionStep)
    | OfRoster(roster: RosterStep)
    | OfLane(i: nat, lane: LaneStep)
    | OfCloser(closer: CloserStep)
    | Cancels
    | SocketCloses

  /** A connection about to be served; an admin's has no roster loop. */
  function Open(lanes: nat, withRoster: bool): Connection {
    Connection(Lobbies, if withRoster then AwaitingStart else RosterGone, AwaitingEnd, seq(lanes, _ => false),
               if withRoster then 2 else 1, false, false, false, false, false, false, [])
  }

  predicate Locked(c: Closer) { c.Telling? || c.Closing? || c.Unlocking? }

  /** The client gets nothing once the socket is closed. */
  predicate Possible(c: Connection, out: Written) { c.closed ==> out.Failed? }

  function Write(c: Connection, frame: Frame, out: Written): Connection {
    match out
    case Delivered => c.(sent := c.sent + [frame])
    case Dropped => c.(sent := c.sent + [frame], closed := true)
    case Failed => c
  }

  /** Whether a stream goes on after a write: it reported no end and ctx lives. */
  predicate GoesOn(c: Connection, out: Written) { out.Delivered? && !c.cancelled }

  predicate SessionCan(c: Connection, s: SessionStep) {
    match s
    case SendsLobby(out) => c.session.Lobbies? && Possible(c, out)
    case LobbyEnds => c.session.Lobbies?
    case StartUnavailable => c.session.StartDue?
    case SendsStart(out) => c.session.StartDue? && Possible(c, out)
    case ChecksStart => c.session.StartWritten?
    case SignalsStart => c.session.StartFlagged?
    case SendsView(out) => c.session.Views? && Possible(c, out)
    case ViewsEnd => c.session.Views?
    case ClosesSent => c.session.Leaving?
    case SessionDone => c.session.SentClosed?
  }

  function SessionNext(c: Connection, s: SessionStep): Connection {
    match s
    case SendsLobby(out) => Write(c, Lobby, out).(session := if GoesOn(c, out) then Lobbies else Leaving)
    case LobbyEnds => c.(session := if c.cancelled then Leaving else StartDue)
    case StartUnavailable => c.(session := Leaving)
    case SendsStart(out) => Write(c, Started, out).(session := if out.Delivered? then StartWritten else Leaving)
    case ChecksStart => if c.cancelled then c.(session := Leaving, gaveUp := true) else c.(session := StartFlagged, started := true)
    case SignalsStart => c.(session := Views, startSent := true)
    case SendsView(out) => Write(c, View, out).(session := if GoesOn(c, out) then Views else Leaving)
    case ViewsEnd => c.(session := Leaving)
    case ClosesSent => c.(session := SentClosed, sessionSent := true)
    case SessionDone => c.(session := SessionGone, streams := c.streams - 1)
  }

  predicate RosterCan(c: Connection, s: RosterStep) {
    match s
    case RosterWakes => c.roster.AwaitingStart? && (c.startSent || c.sessionSent)
    case RosterCancelled => c.roster.AwaitingStart? && c.cancelled
    case SendsRoster(out) => c.roster.Rostering? && Possible(c, out)
    case RosterEnds => c.roster.Rostering?
    case RosterDone => c.roster.RosterLeaving?
  }

  function RosterNext(c: Connection, s: RosterStep): Connection {
    match s
    case RosterWakes => c.(roster := if c.started then Rostering else RosterLeaving)
    case RosterCancelled => c.(roster := RosterLeaving)
    case SendsRoster(out) => Write(c, Roster, out).(roster := if GoesOn(c, out) then Rostering else RosterLeaving)
    case RosterEnds => c.(roster := RosterLeaving)
    case RosterDone => c.(roster := RosterGone, streams := c.streams - 1)
  }

  predicate LaneCan(c: Connection, i: nat, s: LaneStep) {
    && i < |c.answering|
    && match s
       case LaneLocks => !c.answering[i] && !Locked(c.closer)
       case LaneAnswers(out) => c.answering[i] && Possible(c, out)
       case LaneUnlocks => c.answering[i]
  }

  function LaneNext(c: Connection, i: nat, s: LaneStep): Connection
    requires i < |c.answering|
  {
    match s
    case LaneLocks => c.(answering := c.answering[i := true])
    case LaneAnswers(out) => Write(c, Answer, out)
    case LaneUnlocks => c.(answering := c.answering[i := false])
  }

  predicate CloserCan(c: Connection, s: CloserStep) {
    match s
    case RuntimeEnds(_) => c.closer.AwaitingEnd?
    case StreamsDelivered => c.closer.AwaitingStreams? && c.streams == 0
    case CloserCancelled => (c.closer.AwaitingEnd? || c.closer.AwaitingStreams?) && c.cancelled
    case CloserLocks => c.closer.AwaitingLock? && forall i :: 0 <= i < |c.answering| ==> !c.answering[i]
    case CloserTells(out) => c.closer.Telling? && (c.closer.tell ==> Possible(c, out))
    case CloserCloses => c.closer.Closing?
    case CloserUnlocks => c.closer.Unlocking?
  }

  function ClosingFrame(c: Connection): Frame { if c.started then SessionEnded else LobbyClosed }

  /** A failed write reports an end, leaving the socket to serve, unless ctx was cancelled. */
  function Told(c: Connection, out: Written): Connection {
    Write(c, ClosingFrame(c), out)
      .(closer := if out.Delivered? || (out.Failed? && c.cancelled) then Closing else Unlocking)
  }

  function CloserNext(c: Connection, s: CloserStep): Connection
    requires CloserCan(c, s)
  {
    match s
    case RuntimeEnds(tell) => c.(closer := AwaitingStreams(tell))
    case StreamsDelivered => c.(closer := AwaitingLock(c.closer.tell))
    case CloserCancelled => c.(closer := CloserGone)
    case CloserLocks => c.(closer := Telling(c.closer.tell))
    case CloserTells(out) => if c.closer.tell then Told(c, out) else c.(closer := Closing)
    case CloserCloses => c.(closer := Unlocking, closed := true)
    case CloserUnlocks => c.(closer := CloserGone)
  }

  predicate Enabled(c: Connection, s: Step) {
    match s
    case OfSession(step) => SessionCan(c, step)
    case OfRoster(step) => RosterCan(c, step)
    case OfLane(i, step) => LaneCan(c, i, step)
    case OfCloser(step) => CloserCan(c, step)
    case _ => true
  }

  function Next(c: Connection, s: Step): Connection
    requires Enabled(c, s)
  {
    match s
    case OfSession(step) => SessionNext(c, step)
    case OfRoster(step) => RosterNext(c, step)
    case OfLane(i, step) => LaneNext(c, i, step)
    case OfCloser(step) => CloserNext(c, step)
    case Cancels => c.(cancelled := true)
    case SocketCloses => c.(closed := true)
  }

  predicate IsRun(c: Connection, steps: seq<Step>)
    decreases |steps|
  {
    steps == [] || (Enabled(c, steps[0]) && IsRun(Next(c, steps[0]), steps[1..]))
  }

  function Run(c: Connection, steps: seq<Step>): Connection
    requires IsRun(c, steps)
    decreases |steps|
  {
    if steps == [] then c else Run(Next(c, steps[0]), steps[1..])
  }

  // --- The order a client may rely on ---

  predicate IsClosing(f: Frame) { f.LobbyClosed? || f.SessionEnded? }

  /** Where a client stands after what it got: before the start, after it, or told how it
      ended, which it may be before or after the start. */
  datatype Phase = InLobby | Playing | Over(begun: bool, ended: bool) | OutOfOrder

  function After(p: Phase, f: Frame): Phase {
    if p.Over? || p.OutOfOrder? then OutOfOrder
    else if f.Answer? then p
    else if IsClosing(f) then Over(p.Playing?, f.SessionEnded?)
    else if p.InLobby? then if f.Lobby? then InLobby else if f.Started? then Playing else OutOfOrder
    else if f.View? || f.Roster? then Playing
    else OutOfOrder
  }

  function PhaseOf(sent: seq<Frame>): Phase {
    if sent == [] then InLobby else After(PhaseOf(sent[..|sent| - 1]), sent[|sent| - 1])
  }

  /** The same order, message by message. */
  predicate InOrder(sent: seq<Frame>) {
    && (forall i, j :: 0 <= i < j < |sent| && sent[i].Started? ==> !sent[j].Lobby? && !sent[j].Started?)
    && (forall j :: 0 <= j < |sent| && (sent[j].View? || sent[j].Roster?) ==> Started in sent[..j])
    && (forall i :: 0 <= i < |sent| && IsClosing(sent[i]) ==> i == |sent| - 1)
  }

  /** A client's reading of what it got accepts exactly the messages in order. */
  lemma {:induction false} PhasesAreTheOrder(sent: seq<Frame>)
    ensures PhaseOf(sent) != OutOfOrder <==> InOrder(sent)
    ensures var p := PhaseOf(sent);
            p != OutOfOrder ==>
              && (Started in sent <==> p.Playing? || (p.Over? && p.begun))
              && (LobbyClosed in sent <==> p.Over? && !p.ended) && (SessionEnded in sent <==> p.Over? && p.ended)
              && (p.Over? <==> sent != [] && IsClosing(sent[|sent| - 1]))
  {
    if sent != [] {
      var front, last := sent[..|sent| - 1], sent[|sent| - 1];
      PhasesAreTheOrder(front);
      assert sent == front + [last];
      if InOrder(sent) {
        OrderOfFront(front, last);
      }
      if PhaseOf(sent) != OutOfOrder {
        OrderExtends(front, last);
      }
    }
  }

  lemma OrderOfFront(front: seq<Frame>, last: Frame)
    requires InOrder(front + [last])
    ensures InOrder(front) && (front != [] ==> !IsClosing(front[|front| - 1]))
    ensures (last.Lobby? || last.Started? ==> Started !in front) && (last.View? || last.Roster? ==> Started in front)
  {
    var sent := front + [last];
    forall j | 0 <= j < |front| && (front[j].View? || front[j].Roster?)
      ensures Started in front[..j]
    {
      assert sent[j] == front[j] && sent[..j] == front[..j];
    }
    forall i, j | 0 <= i < j < |front| && front[i].Started?
      ensures !front[j].Lobby? && !front[j].Started?
    {
      assert sent[i] == front[i] && sent[j] == front[j];
    }
    forall i | 0 <= i < |front|
      ensures !IsClosing(front[i]) && (last.Lobby? || last.Started? ==> !front[i].Started?)
    {
      assert sent[i] == front[i] && sent[|front|] == last;
    }
    assert sent[|front|] == last && sent[..|front|] == front;
  }

  lemma OrderExtends(front: seq<Frame>, last: Frame)
    requires InOrder(front) && (front != [] ==> !IsClosing(front[|front| - 1]))
    requires (last.Lobby? || last.Started? ==> Started !in front) && (last.View? || last.Roster? ==> Started in front)
    ensures InOrder(front + [last])
  {
    var sent := front + [last];
    forall j | 0 <= j < |sent| && (sent[j].View? || sent[j].Roster?)
      ensures Started in sent[..j]
    {
      assert sent[..j] == front[..j];
      assert front[..|front|] == front;
    }
  }

  // --- What every run keeps ---

  predicate BeforeStart(l: SessionLoop) { l.Lobbies? || l.StartDue? }

  predicate Ending(l: SessionLoop) { l.Leaving? || l.SentClosed? || l.SessionGone? }

  predicate PastStart(l: SessionLoop) { l.StartFlagged? || l.Views? }

  /** What the session loop's place and flags say about what the client got. */
  predicate StartOk(c: Connection, p: Phase) {
    && p != OutOfOrder
    && (BeforeStart(c.session) ==> p.InLobby? && !c.started)
    && (c.session.StartWritten? ==> p.Playing? && !c.started)
    && (PastStart(c.session) ==> p.Playing? && c.started)
    && (c.started ==> p.Playing? || (p.Over? && p.begun))
    && (c.startSent ==> c.started)
    && (c.sessionSent ==> c.session.SentClosed? || c.session.SessionGone?)
    && (c.roster.Rostering? ==> c.started)
    && (p.Playing? && Ending(c.session) && !c.started ==> c.gaveUp || c.closed)
    && (c.gaveUp ==> c.cancelled && !c.started && Ending(c.session) && (p.Playing? || (p.Over? && p.begun)))
  }

  /** Whoever closes does it after the streams, holding the lock, and closes the socket. */
  predicate ClosingOk(c: Connection) {
    && c.streams == (if c.session.SessionGone? then 0 else 1) + (if c.roster.RosterGone? then 0 else 1)
    && (c.closer.AwaitingLock? || Locked(c.closer) ==> c.streams == 0)
    && (Locked(c.closer) ==> forall i :: 0 <= i < |c.answering| ==> !c.answering[i])
  }

  /** Once told the end, a client gets nothing more; and which end it was told. */
  predicate OverOk(c: Connection, p: Phase) {
    p.Over? ==>
      && c.session.SessionGone? && c.roster.RosterGone?
      && (c.closer.Closing? || ((c.closer.Unlocking? || c.closer.CloserGone?) && c.closed))
      && p.ended == c.started && (p.begun && !p.ended ==> c.gaveUp)
  }

  predicate GoodAt(c: Connection, p: Phase) { StartOk(c, p) && ClosingOk(c) && OverOk(c, p) }

  predicate Good(c: Connection) { GoodAt(c, PhaseOf(c.sent)) }

  lemma OpenIsGood(lanes: nat, withRoster: bool)
    ensures Good(Open(lanes, withRoster))
  {
  }

  /** Where a write leaves the client. */
  function Reached(p: Phase, frame: Frame, out: Written): Phase { if out.Failed? then p else After(p, frame) }

  lemma Sends(c: Connection, frame: Frame, out: Written)
    ensures PhaseOf(Write(c, frame, out).sent) == Reached(PhaseOf(c.sent), frame, out)
  {
    assert (c.sent + [frame])[..|c.sent|] == c.sent;
  }

  /** What the client reads after a step of the session loop. */
  function SessionReaches(p: Phase, s: SessionStep): Phase {
    match s
    case SendsLobby(out) => Reached(p, Lobby, out)
    case SendsStart(out) => Reached(p, Started, out)
    case SendsView(out) => Reached(p, View, out)
    case _ => p
  }

  predicate SessionWrites(s: SessionStep) { s.SendsLobby? || s.SendsStart? || s.SendsView? }

  lemma SessionWriteKeeps(c: Connection, p: Phase, s: SessionStep)
    requires GoodAt(c, p) && SessionCan(c, s) && SessionWrites(s)
    ensures GoodAt(SessionNext(c, s), SessionReaches(p, s))
  {
    match s
    case SendsLobby(out) => LobbyWriteKeeps(c, p, out);
    case SendsStart(out) => StartWriteKeeps(c, p, out);
    case SendsView(out) => ViewWriteKeeps(c, p, out);
  }

  lemma LobbyWriteKeeps(c: Connection, p: Phase, out: Written)
    requires GoodAt(c, p) && SessionCan(c, SendsLobby(out))
    ensures GoodAt(SessionNext(c, SendsLobby(out)), Reached(p, Lobby, out))
  {
  }

  lemma StartWriteKeeps(c: Connection, p: Phase, out: Written)
    requires GoodAt(c, p) && SessionCan(c, SendsStart(out))
    ensures GoodAt(SessionNext(c, SendsStart(out)), Reached(p, Started, out))
  {
  }

  lemma ViewWriteKeeps(c: Connection, p: Phase, out: Written)
    requires GoodAt(c, p) && SessionCan(c, SendsView(out))
    ensures GoodAt(SessionNext(c, SendsView(out)), Reached(p, View, out))
  {
  }

  lemma SessionMoveKeeps(c: Connection, p: Phase, s: SessionStep)
    requires GoodAt(c, p) && SessionCan(c, s) && !SessionWrites(s)
    ensures GoodAt(SessionNext(c, s), p)
  {
  }

  lemma SessionKeeps(c: Connection, p: Phase, s: SessionStep)
    requires GoodAt(c, p) && SessionCan(c, s)
    ensures GoodAt(SessionNext(c, s), SessionReaches(p, s))
  {
    if SessionWrites(s) {
      SessionWriteKeeps(c, p, s);
    } else {
      SessionMoveKeeps(c, p, s);
    }
  }

  lemma SessionKeepsGood(c: Connection, s: SessionStep)
    requires Good(c) && SessionCan(c, s)
    ensures Good(SessionNext(c, s))
  {
    SessionKeeps(c, PhaseOf(c.sent), s);
    match s
    case SendsLobby(out) => Sends(c, Lobby, out);
    case SendsStart(out) => Sends(c, Started, out);
    case SendsView(out) => Sends(c, View, out);
    case _ =>
  }

  lemma RosterKeeps(c: Connection, p: Phase, s: RosterStep)
    requires GoodAt(c, p) && RosterCan(c, s)
    ensures GoodAt(RosterNext(c, s), if s.SendsRoster? then Reached(p, Roster, s.out) else p)
  {
  }

  lemma LaneKeeps(c: Connection, p: Phase, i: nat, s: LaneStep)
    requires GoodAt(c, p) && LaneCan(c, i, s)
    ensures GoodAt(LaneNext(c, i, s), if s.LaneAnswers? then Reached(p, Answer, s.out) else p)
  {
    if s.LaneAnswers? {
      LaneAnswerKeeps(c, p, i, s.out);
    }
  }

  lemma LaneAnswerKeeps(c: Connection, p: Phase, i: nat, out: Written)
    requires GoodAt(c, p) && LaneCan(c, i, LaneAnswers(out))
    ensures GoodAt(Write(c, Answer, out), Reached(p, Answer, out))
  {
    assert !Locked(c.closer);
    assert p.Over? ==> out.Failed?;
  }

  lemma CloserKeeps(c: Connection, p: Phase, s: CloserStep)
    requires GoodAt(c, p) && CloserCan(c, s)
    ensures GoodAt(CloserNext(c, s), if s.CloserTells? && c.closer.tell then Reached(p, ClosingFrame(c), s.out) else p)
  {
  }

  lemma RosterKeepsGood(c: Connection, s: RosterStep)
    requires Good(c) && RosterCan(c, s)
    ensures Good(RosterNext(c, s))
  {
    RosterKeeps(c, PhaseOf(c.sent), s);
    if s.SendsRoster? { Sends(c, Roster, s.out); }
  }

  lemma LaneKeepsGood(c: Connection, i: nat, s: LaneStep)
    requires Good(c) && LaneCan(c, i, s)
    ensures Good(LaneNext(c, i, s))
  {
    LaneKeeps(c, PhaseOf(c.sent), i, s);
    if s.LaneAnswers? { Sends(c, Answer, s.out); }
  }

  lemma CloserKeepsGood(c: Connection, s: CloserStep)
    requires Good(c) && CloserCan(c, s)
    ensures Good(CloserNext(c, s))
  {
    CloserKeeps(c, PhaseOf(c.sent), s);
    if s.CloserTells? { Sends(c, ClosingFrame(c), s.out); }
  }

  lemma NextKeepsGood(c: Connection, s: Step)
    requires Good(c) && Enabled(c, s)
    ensures Good(Next(c, s))
  {
    match s
    case OfSession(step) => SessionKeepsGood(c, step);
    case OfRoster(step) => RosterKeepsGood(c, step);
    case OfLane(i, step) => LaneKeepsGood(c, i, step);
    case OfCloser(step) => CloserKeepsGood(c, step);
    case _ =>
  }

  lemma {:induction false} EveryRunIsGood(c: Connection, steps: seq<Step>)
    requires Good(c) && IsRun(c, steps)
    ensures Good(Run(c, steps))
    decreases |steps|
  {
    if steps != [] {
      NextKeepsGood(c, steps[0]);
      EveryRunIsGood(Next(c, steps[0]), steps[1..]);
    }
  }

  /** In every interleaving of a connection's loops: no lobby update follows the start, no
      view or roster precedes it, and the closing message is the last of all. A client told
      an end is told the session ended exactly when it was sent the start, unless, and only
      unless, ctx was found done right after that start was written. */
  lemma ClientIsSentAnOrder(lanes: nat, withRoster: bool, steps: seq<Step>)
    requires IsRun(Open(lanes, withRoster), steps)
    ensures var c := Run(Open(lanes, withRoster), steps);
            && InOrder(c.sent) && (c.gaveUp ==> c.cancelled)
            && (SessionEnded in c.sent ==> Started in c.sent)
            && (SessionEnded in c.sent || LobbyClosed in c.sent ==>
                  ((SessionEnded in c.sent <==> Started in c.sent) <==> !c.gaveUp))
  {
    OpenIsGood(lanes, withRoster);
    EveryRunIsGood(Open(lanes, withRoster), steps);
    PhasesAreTheOrder(Run(Open(lanes, withRoster), steps).sent);
  }

  /** The start is written, ctx is cancelled, and the check after the write finds it done. */
  lemma StartIsCancelled() returns (steps: seq<Step>, c: Connection)
    ensures IsRun(Open(0, false), steps) && Run(Open(0, false), steps) == c
    ensures c == Open(0, false).(session := Leaving, gaveUp := true, cancelled := true, sent := [Started])
  {
    var open := Open(0, false);
    steps, c := More(open, [], open, OfSession(LobbyEnds));
    steps, c := More(open, steps, c, OfSession(SendsStart(Delivered)));
    assert c.sent == [Started];
    steps, c := More(open, steps, c, Cancels);
    steps, c := More(open, steps, c, OfSession(ChecksStart));
  }

  /** A cancellation between the start's write and the flag it sets makes a connection whose
      client got the start close as a lobby does. */
  lemma CancelledStartClosesAsLobby()
    ensures exists steps ::
              IsRun(Open(0, false), steps) && Run(Open(0, false), steps).sent == [Started, LobbyClosed]
  {
    var open := Open(0, false);
    var steps, c := StartIsCancelled();
    steps, c := More(open, steps, c, OfSession(ClosesSent));
    steps, c := More(open, steps, c, OfSession(SessionDone));
    steps, c := More(open, steps, c, OfCloser(RuntimeEnds(true)));
    steps, c := More(open, steps, c, OfCloser(StreamsDelivered));
    steps, c := More(open, steps, c, OfCloser(CloserLocks));
    steps, c := More(open, steps, c, OfCloser(CloserTells(Delivered)));
    assert c.sent == [Started] + [LobbyClosed];
  }

  lemma More(open: Connection, steps: seq<Step>, c: Connection, s: Step) returns (more: seq<Step>, d: Connection)
    requires IsRun(open, steps) && Run(open, steps) == c && Enabled(c, s)
    ensures IsRun(open, more) && Run(open, more) == d == Next(c, s)
  {
    more, d := steps + [s], Next(c, s);
    assert [s][1..] == [];
    assert IsRun(c, [s]) && Run(c, [s]) == d by {
      assert IsRun(d, []) && Run(d, []) == d;
    }
    Joins(open, steps, [s]);
  }

  lemma {:induction false} Joins(c: Connection, a: seq<Step>, b: seq<Step>)
    requires IsRun(c, a) && IsRun(Run(c, a), b)
    ensures IsRun(c, a + b) && Run(c, a + b) == Run(Run(c, a), b)
    decreases |a|
  {
    if a == [] {
      assert a + b == b;
    } else {
      assert (a + b)[1..] == a[1..] + b;
      Joins(Next(c, a[0]), a[1..], b);
    }
  }
}
