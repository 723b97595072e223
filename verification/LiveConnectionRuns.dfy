/** What a connection's client can be sent: exactly which sequences of messages some
    interleaving of its loops sends, so that no stream is ever silently left out
    (api/play/live_connection.go, api/play/player_join.go). */
module LiveConnectionRuns {
  import opened LiveConnection

  /** Some run of a connection just opened ends at c. */
  ghost predicate Gets(open: Connection, c: Connection) { exists steps :: IsRun(open, steps) && Run(open, steps) == c }

  lemma Opens(open: Connection)
    ensures Gets(open, open)
  {
    assert IsRun(open, []) && Run(open, []) == open;
  }

  lemma Onward(open: Connection, c: Connection, s: Step)
    requires Gets(open, c) && Enabled(c, s)
    ensures Gets(open, Next(c, s))
  {
    var steps :| IsRun(open, steps) && Run(open, steps) == c;
    var more, d := More(open, steps, c, s);
  }

  // --- The streams go on while nothing ends them ---

  /** A step by which a stream sends its next message, which the client gets. */
  predicate IsStreaming(s: Step, f: Frame) {
    || (s == OfSession(SendsLobby(Delivered)) && f == Lobby)
    || (s == OfSession(SendsView(Delivered)) && f == View)
    || (s == OfRoster(SendsRoster(Delivered)) && f == Roster)
  }

  lemma OneMoreIsSent(c: Connection, s: Step, f: Frame)
    requires IsStreaming(s, f) && Enabled(c, s) && !c.cancelled
    ensures Next(c, s) == c.(sent := c.sent + [f]) && Enabled(Next(c, s), s)
  {
  }

  /** A stream that can send a message can send any number of them. */
  lemma {:induction false} StreamGoesOn(c: Connection, s: Step, f: Frame, n: nat)
    requires IsStreaming(s, f) && Enabled(c, s) && !c.cancelled
    ensures var steps := seq(n, _ => s); IsRun(c, steps) && Run(c, steps) == c.(sent := c.sent + seq(n, _ => f))
    decreases n
  {
    var steps := seq(n, _ => s);
    if n == 0 {
      assert c.sent + seq(n, _ => f) == c.sent;
    } else {
      var d := c.(sent := c.sent + [f]);
      OneMoreIsSent(c, s, f);
      StreamGoesOn(d, s, f, n - 1);
      assert steps[1..] == seq(n - 1, _ => s);
      assert d.sent + seq(n - 1, _ => f) == c.sent + seq(n, _ => f);
    }
  }

  /** A roster loop waiting when the start was sent and signalled goes on to send every
      roster update, however many come. */
  lemma RosterFollowsTheStart(c: Connection, n: nat)
    requires Good(c) && c.roster.AwaitingStart? && c.startSent && !c.cancelled && !c.closed
    ensures var steps := [OfRoster(RosterWakes)] + seq(n, _ => OfRoster(SendsRoster(Delivered)));
            IsRun(c, steps) && Run(c, steps).sent == c.sent + seq(n, _ => Roster)
  {
    var woken, sends := Next(c, OfRoster(RosterWakes)), seq(n, _ => OfRoster(SendsRoster(Delivered)));
    StreamGoesOn(woken, OfRoster(SendsRoster(Delivered)), Roster, n);
    assert ([OfRoster(RosterWakes)] + sends)[1..] == sends;
  }

  // --- And stop when a write ends them, or the connection is cancelled ---

  /** Whether the session loop, or the roster loop, sends such a message. */
  predicate IsOf(session: bool, f: Frame) { if session then f.Lobby? || f.Started? || f.View? else f.Roster? }

  /** How many of the client's messages one stream sent. */
  function SentBy(session: bool, sent: seq<Frame>): nat {
    if sent == [] then 0 else SentBy(session, sent[..|sent| - 1]) + if IsOf(session, sent[|sent| - 1]) then 1 else 0
  }

  lemma OneMoreSent(session: bool, sent: seq<Frame>, f: Frame)
    ensures SentBy(session, sent + [f]) == SentBy(session, sent) + if IsOf(session, f) then 1 else 0
  {
    assert (sent + [f])[..|sent|] == sent;
  }

  /** What a write leaves of a connection. */
  predicate WritesOne(c: Connection, d: Connection, f: Frame, out: Written) {
    && d.sent == (if out.Failed? then c.sent else c.sent + [f])
    && d.session == c.session && d.roster == c.roster && d.cancelled == c.cancelled
  }

  lemma Writing(c: Connection, f: Frame, out: Written)
    ensures WritesOne(c, Write(c, f, out), f, out)
  {
  }

  /** A stream on its way out. */
  predicate IsOver(session: bool, c: Connection) {
    if session then Ending(c.session) else c.roster.RosterLeaving? || c.roster.RosterGone?
  }

  /** How many messages it may still send once the connection is cancelled. */
  function LeftToSend(session: bool, c: Connection): nat {
    if IsOver(session, c) || (session && c.session.StartWritten?) then 0 else 1
  }

  /** A step sends no more of a stream than it has left, which never becomes more. */
  predicate Spends(session: bool, c: Connection, d: Connection) {
    && (c.cancelled ==>
          && d.cancelled
          && SentBy(session, d.sent) + LeftToSend(session, d) <= SentBy(session, c.sent) + LeftToSend(session, c))
    && (IsOver(session, c) ==> IsOver(session, d) && SentBy(session, d.sent) == SentBy(session, c.sent))
  }

  /** A stream that wrote goes on only after a write that ended nothing. */
  lemma StreamWriteSpends(session: bool, c: Connection, w: Connection, d: Connection, f: Frame, out: Written, mine: bool)
    requires WritesOne(c, w, f, out) && IsOf(mine, f)
    requires d.sent == w.sent && d.cancelled == w.cancelled
    requires if mine then d.roster == c.roster && !IsOver(true, c) && !c.session.StartWritten? else d.session == c.session && !IsOver(false, c)
    requires IsOver(mine, d) || (out.Delivered? && (!c.cancelled || (mine && d.session.StartWritten?)))
    ensures Spends(session, c, d)
  {
    OneMoreSent(session, c.sent, f);
  }

  lemma SessionSpends(session: bool, c: Connection, s: SessionStep)
    requires SessionCan(c, s)
    ensures Spends(session, c, SessionNext(c, s))
  {
    match s
    case SendsLobby(out) => LobbySpends(session, c, out);
    case SendsStart(out) => StartSpends(session, c, out);
    case SendsView(out) => ViewSpends(session, c, out);
    case _ => MoveSpends(session, c, s);
  }

  lemma LobbySpends(session: bool, c: Connection, out: Written)
    requires SessionCan(c, SendsLobby(out))
    ensures Spends(session, c, SessionNext(c, SendsLobby(out)))
  {
    Writing(c, Lobby, out);
    StreamWriteSpends(session, c, Write(c, Lobby, out), SessionNext(c, SendsLobby(out)), Lobby, out, true);
  }

  lemma StartSpends(session: bool, c: Connection, out: Written)
    requires SessionCan(c, SendsStart(out))
    ensures Spends(session, c, SessionNext(c, SendsStart(out)))
  {
    Writing(c, Started, out);
    StreamWriteSpends(session, c, Write(c, Started, out), SessionNext(c, SendsStart(out)), Started, out, true);
  }

  lemma ViewSpends(session: bool, c: Connection, out: Written)
    requires SessionCan(c, SendsView(out))
    ensures Spends(session, c, SessionNext(c, SendsView(out)))
  {
    Writing(c, View, out);
    StreamWriteSpends(session, c, Write(c, View, out), SessionNext(c, SendsView(out)), View, out, true);
  }

  lemma MoveSpends(session: bool, c: Connection, s: SessionStep)
    requires SessionCan(c, s) && !SessionWrites(s)
    ensures Spends(session, c, SessionNext(c, s))
  {
    SessionMoves(c, s);
    SameSentSpends(session, c, SessionNext(c, s));
  }

  predicate Quiet(c: Connection, d: Connection) { d.sent == c.sent && d.cancelled == c.cancelled && d.roster == c.roster }

  lemma SessionMoves(c: Connection, s: SessionStep)
    requires SessionCan(c, s) && !SessionWrites(s)
    ensures var d := SessionNext(c, s);
            && Quiet(c, d) && (IsOver(true, c) ==> IsOver(true, d)) && (c.cancelled && c.session.StartWritten? ==> IsOver(true, d))
  {
  }

  lemma SameSentSpends(session: bool, c: Connection, d: Connection)
    requires Quiet(c, d) && (IsOver(true, c) ==> IsOver(true, d)) && (c.cancelled && c.session.StartWritten? ==> IsOver(true, d))
    ensures Spends(session, c, d)
  {
  }

  lemma RosterSpends(session: bool, c: Connection, s: RosterStep)
    requires RosterCan(c, s)
    ensures Spends(session, c, RosterNext(c, s))
  {
    if s.SendsRoster? {
      Writing(c, Roster, s.out);
      StreamWriteSpends(session, c, Write(c, Roster, s.out), RosterNext(c, s), Roster, s.out, false);
    } else {
      assert RosterNext(c, s).sent == c.sent;
    }
  }

  /** A message of neither stream. */
  lemma OtherWriteSpends(session: bool, c: Connection, w: Connection, d: Connection, f: Frame, out: Written)
    requires WritesOne(c, w, f, out) && !IsOf(true, f) && !IsOf(false, f)
    requires d.sent == w.sent && d.session == w.session && d.roster == w.roster && d.cancelled == w.cancelled
    ensures Spends(session, c, d)
  {
    OneMoreSent(session, c.sent, f);
  }

  lemma LaneSpends(session: bool, c: Connection, i: nat, s: LaneStep)
    requires LaneCan(c, i, s)
    ensures Spends(session, c, LaneNext(c, i, s))
  {
    if s.LaneAnswers? {
      Writing(c, Answer, s.out);
      OtherWriteSpends(session, c, Write(c, Answer, s.out), LaneNext(c, i, s), Answer, s.out);
    } else {
      assert LaneNext(c, i, s).sent == c.sent;
    }
  }

  lemma CloserSpends(session: bool, c: Connection, s: CloserStep)
    requires CloserCan(c, s)
    ensures Spends(session, c, CloserNext(c, s))
  {
    if s.CloserTells? && c.closer.tell {
      Writing(c, ClosingFrame(c), s.out);
      OtherWriteSpends(session, c, Write(c, ClosingFrame(c), s.out), CloserNext(c, s), ClosingFrame(c), s.out);
    } else {
      assert CloserNext(c, s).(closer := c.closer, closed := c.closed) == c;
    }
  }

  lemma NextSpends(session: bool, c: Connection, s: Step)
    requires Enabled(c, s)
    ensures Spends(session, c, Next(c, s))
  {
    match s
    case OfSession(step) => SessionSpends(session, c, step);
    case OfRoster(step) => RosterSpends(session, c, step);
    case OfLane(i, step) => LaneSpends(session, c, i, step);
    case OfCloser(step) => CloserSpends(session, c, step);
    case _ =>
  }

  /** Once the connection is cancelled, each stream sends at most one message more, and one
      on its way out sends none. */
  lemma {:induction false} CancelledStreamsStop(session: bool, c: Connection, steps: seq<Step>)
    requires IsRun(c, steps) && (c.cancelled || IsOver(session, c))
    ensures var sent := SentBy(session, Run(c, steps).sent);
            if IsOver(session, c) then sent == SentBy(session, c.sent)
            else sent <= SentBy(session, c.sent) + LeftToSend(session, c) <= SentBy(session, c.sent) + 1
    decreases |steps|
  {
    if steps != [] {
      NextSpends(session, c, steps[0]);
      CancelledStreamsStop(session, Next(c, steps[0]), steps[1..]);
    }
  }

  predicate LeavesLobby(c: Connection) { c.cancelled && (c.session.Lobbies? || Ending(c.session)) }

  predicate StaysUnsent(c: Connection, d: Connection) {
    d.session == c.session && d.cancelled == c.cancelled && (Started !in c.sent ==> Started !in d.sent)
  }

  lemma RosterWritesNoStart(c: Connection, s: RosterStep)
    requires RosterCan(c, s)
    ensures StaysUnsent(c, RosterNext(c, s))
  {
    if s.SendsRoster? { Writing(c, Roster, s.out); }
  }

  lemma LaneWritesNoStart(c: Connection, i: nat, s: LaneStep)
    requires LaneCan(c, i, s)
    ensures StaysUnsent(c, LaneNext(c, i, s))
  {
    if s.LaneAnswers? { Writing(c, Answer, s.out); }
  }

  lemma CloserWritesNoStart(c: Connection, s: CloserStep)
    requires CloserCan(c, s)
    ensures StaysUnsent(c, CloserNext(c, s))
  {
    if s.CloserTells? && c.closer.tell {
      Writing(c, ClosingFrame(c), s.out);
    } else {
      assert CloserNext(c, s).(closer := c.closer, closed := c.closed) == c;
    }
  }

  /** A connection cancelled while its client is in the lobby is never sent the start. */
  lemma {:induction false} CancelledLobbyNeverStarts(c: Connection, steps: seq<Step>)
    requires LeavesLobby(c) && Started !in c.sent && IsRun(c, steps)
    ensures Started !in Run(c, steps).sent
    decreases |steps|
  {
    if steps != [] {
      match steps[0] {
        case OfSession(step) => LobbyLeaves(c, step);
        case OfRoster(step) => RosterWritesNoStart(c, step);
        case OfLane(i, step) => LaneWritesNoStart(c, i, step);
        case OfCloser(step) => CloserWritesNoStart(c, step);
        case _ =>
      }
      CancelledLobbyNeverStarts(Next(c, steps[0]), steps[1..]);
    }
  }

  lemma LobbyLeaves(c: Connection, s: SessionStep)
    requires LeavesLobby(c) && Started !in c.sent && SessionCan(c, s)
    ensures LeavesLobby(SessionNext(c, s)) && Started !in SessionNext(c, s).sent
  {
    if s.SendsLobby? { Writing(c, Lobby, s.out); }
  }

  /** A write that failed, or whose client was dropped, is its stream's last: of a lobby
      update, the start or a view, and of a roster update. */
  lemma EndedSessionWriteIsTheLast(c: Connection, s: SessionStep, steps: seq<Step>)
    requires SessionWrites(s) && !s.out.Delivered? && SessionCan(c, s) && IsRun(SessionNext(c, s), steps)
    ensures SentBy(true, Run(SessionNext(c, s), steps).sent) == SentBy(true, SessionNext(c, s).sent)
  {
    assert IsOver(true, SessionNext(c, s));
    CancelledStreamsStop(true, SessionNext(c, s), steps);
  }

  lemma EndedRosterWriteIsTheLast(c: Connection, out: Written, steps: seq<Step>)
    requires !out.Delivered? && RosterCan(c, SendsRoster(out)) && IsRun(RosterNext(c, SendsRoster(out)), steps)
    ensures var d := RosterNext(c, SendsRoster(out)); SentBy(false, Run(d, steps).sent) == SentBy(false, d.sent)
  {
    CancelledStreamsStop(false, RosterNext(c, SendsRoster(out)), steps);
  }

  /** The closer closes the socket itself when there was nothing to tell or the client got
      it, or when it could not be told because the connection is cancelled; otherwise the
      write's own end is left to serve. */
  lemma CloserClosesIff(c: Connection, out: Written)
    requires c.closer.Telling? && Enabled(c, OfCloser(CloserTells(out)))
    ensures var told := Next(c, OfCloser(CloserTells(out)));
            var closes := !c.closer.tell || out.Delivered? || (out.Failed? && c.cancelled);
            && (Enabled(told, OfCloser(CloserCloses)) <==> closes)
            && (Enabled(told, OfCloser(CloserUnlocks)) <==> !closes)
            && (closes ==> Next(told, OfCloser(CloserCloses)).closed)
  {
  }

  // --- What no run sends ---

  /** What the client got says of the loops that sent it. */
  predicate Facts(c: Connection, lanes: nat, withRoster: bool) {
    && (View in c.sent || Roster in c.sent ==> c.started)
    && (!withRoster ==> c.roster.RosterGone? && Roster !in c.sent)
    && |c.answering| == lanes && (lanes == 0 ==> Answer !in c.sent)
  }

  lemma WriteKeepsFacts(c: Connection, f: Frame, out: Written, lanes: nat, withRoster: bool)
    requires Facts(c, lanes, withRoster) && (f.View? || f.Roster? ==> c.started) && (f.Roster? ==> withRoster) && (f.Answer? ==> lanes > 0)
    ensures Facts(Write(c, f, out), lanes, withRoster)
  {
  }

  lemma SessionKeepsFacts(c: Connection, s: SessionStep, lanes: nat, withRoster: bool)
    requires Good(c) && Facts(c, lanes, withRoster) && SessionCan(c, s)
    ensures Facts(SessionNext(c, s), lanes, withRoster)
  {
    match s
    case SendsLobby(out) => WriteKeepsFacts(c, Lobby, out, lanes, withRoster);
    case SendsStart(out) => WriteKeepsFacts(c, Started, out, lanes, withRoster);
    case SendsView(out) => WriteKeepsFacts(c, View, out, lanes, withRoster);
    case _ => assert SessionNext(c, s).sent == c.sent;
  }

  lemma RosterKeepsFacts(c: Connection, s: RosterStep, lanes: nat, withRoster: bool)
    requires Good(c) && Facts(c, lanes, withRoster) && RosterCan(c, s)
    ensures Facts(RosterNext(c, s), lanes, withRoster)
  {
    if s.SendsRoster? { WriteKeepsFacts(c, Roster, s.out, lanes, withRoster); }
  }

  lemma LaneKeepsFacts(c: Connection, i: nat, s: LaneStep, lanes: nat, withRoster: bool)
    requires Facts(c, lanes, withRoster) && LaneCan(c, i, s)
    ensures Facts(LaneNext(c, i, s), lanes, withRoster)
  {
    if s.LaneAnswers? { WriteKeepsFacts(c, Answer, s.out, lanes, withRoster); }
  }

  lemma CloserKeepsFacts(c: Connection, s: CloserStep, lanes: nat, withRoster: bool)
    requires Facts(c, lanes, withRoster) && CloserCan(c, s)
    ensures Facts(CloserNext(c, s), lanes, withRoster)
  {
    if s.CloserTells? && c.closer.tell {
      WriteKeepsFacts(c, ClosingFrame(c), s.out, lanes, withRoster);
    } else {
      assert CloserNext(c, s).(closer := c.closer, closed := c.closed) == c;
    }
  }

  lemma NextKeepsFacts(c: Connection, s: Step, lanes: nat, withRoster: bool)
    requires Good(c) && Facts(c, lanes, withRoster) && Enabled(c, s)
    ensures Facts(Next(c, s), lanes, withRoster)
  {
    match s
    case OfSession(step) => SessionKeepsFacts(c, step, lanes, withRoster);
    case OfRoster(step) => RosterKeepsFacts(c, step, lanes, withRoster);
    case OfLane(i, step) => LaneKeepsFacts(c, i, step, lanes, withRoster);
    case OfCloser(step) => CloserKeepsFacts(c, step, lanes, withRoster);
    case _ =>
  }

  lemma {:induction false} EveryRunKeepsFacts(c: Connection, steps: seq<Step>, lanes: nat, withRoster: bool)
    requires Good(c) && Facts(c, lanes, withRoster) && IsRun(c, steps)
    ensures Good(Run(c, steps)) && Facts(Run(c, steps), lanes, withRoster)
    decreases |steps|
  {
    if steps != [] {
      NextKeepsGood(c, steps[0]);
      NextKeepsFacts(c, steps[0], lanes, withRoster);
      EveryRunKeepsFacts(Next(c, steps[0]), steps[1..], lanes, withRoster);
    }
  }

  lemma SessionStaysOver(c: Connection, s: SessionStep)
    requires Good(c) && c.sessionSent && SessionCan(c, s)
    ensures s.SessionDone?
  {
  }

  predicate SameFlags(c: Connection, d: Connection) { d.sessionSent == c.sessionSent && d.started == c.started }

  lemma RosterSetsNoFlag(c: Connection, s: RosterStep)
    requires RosterCan(c, s)
    ensures SameFlags(c, RosterNext(c, s))
  {
  }

  lemma LaneSetsNoFlag(c: Connection, i: nat, s: LaneStep)
    requires LaneCan(c, i, s)
    ensures SameFlags(c, LaneNext(c, i, s))
  {
  }

  lemma CloserSetsNoFlag(c: Connection, s: CloserStep)
    requires CloserCan(c, s)
    ensures SameFlags(c, CloserNext(c, s))
  {
  }

  lemma StaysUnstarted(c: Connection, s: Step)
    requires Good(c) && c.sessionSent && !c.started && Enabled(c, s)
    ensures Next(c, s).sessionSent && !Next(c, s).started
  {
    match s
    case OfSession(step) => SessionStaysOver(c, step);
    case OfRoster(step) => RosterSetsNoFlag(c, step);
    case OfLane(i, step) => LaneSetsNoFlag(c, i, step);
    case OfCloser(step) => CloserSetsNoFlag(c, step);
    case _ =>
  }

  /** A roster loop that finds the session loop ended without setting started leaves, and
      the client is never sent a roster. */
  lemma {:induction false} NoRosterWithoutTheStart(c: Connection, steps: seq<Step>, lanes: nat, withRoster: bool)
    requires Good(c) && Facts(c, lanes, withRoster) && c.sessionSent && !c.started && IsRun(c, steps)
    ensures Roster !in Run(c, steps).sent
    ensures c.roster.AwaitingStart? ==> Next(c, OfRoster(RosterWakes)).roster.RosterLeaving?
    decreases |steps|
  {
    if steps != [] {
      NextKeepsGood(c, steps[0]);
      NextKeepsFacts(c, steps[0], lanes, withRoster);
      StaysUnstarted(c, steps[0]);
      NoRosterWithoutTheStart(Next(c, steps[0]), steps[1..], lanes, withRoster);
    }
  }

  /** The order, with the closing that goes with it, from loops the connection has. */
  predicate CanBeSent(lanes: nat, withRoster: bool, sent: seq<Frame>) {
    && InOrder(sent)
    && (SessionEnded in sent ==> Started in sent)
    && (LobbyClosed in sent && Started in sent ==> View !in sent && Roster !in sent)
    && (!withRoster ==> Roster !in sent) && (lanes == 0 ==> Answer !in sent)
  }

  lemma OnlySuchIsSent(lanes: nat, withRoster: bool, steps: seq<Step>)
    requires IsRun(Open(lanes, withRoster), steps)
    ensures CanBeSent(lanes, withRoster, Run(Open(lanes, withRoster), steps).sent)
  {
    var c := Run(Open(lanes, withRoster), steps);
    OpenIsGood(lanes, withRoster);
    EveryRunKeepsFacts(Open(lanes, withRoster), steps, lanes, withRoster);
    ClientIsSentAnOrder(lanes, withRoster, steps);
    PhasesAreTheOrder(c.sent);
  }

  // --- And some run sends each of them ---

  function InLobbyAt(lanes: nat, withRoster: bool, sent: seq<Frame>): Connection { Open(lanes, withRoster).(sent := sent) }

  function PlayingAt(lanes: nat, withRoster: bool, sent: seq<Frame>): Connection {
    Open(lanes, withRoster).(session := Views, roster := if withRoster then Rostering else RosterGone,
                             started := true, startSent := true, sent := sent)
  }

  function GivenUpAt(lanes: nat, withRoster: bool, sent: seq<Frame>): Connection {
    Open(lanes, withRoster).(session := Leaving, gaveUp := true, cancelled := true, sent := sent)
  }

  /** A lane answers. */
  lemma Answers(open: Connection, c: Connection)
    requires Gets(open, c) && |c.answering| > 0 && !c.answering[0] && !Locked(c.closer) && !c.closed
    ensures Gets(open, c.(sent := c.sent + [Answer]))
  {
    var locked := Next(c, OfLane(0, LaneLocks));
    Onward(open, c, OfLane(0, LaneLocks));
    var answered := Next(locked, OfLane(0, LaneAnswers(Delivered)));
    Onward(open, locked, OfLane(0, LaneAnswers(Delivered)));
    Onward(open, answered, OfLane(0, LaneUnlocks));
    assert c.answering[0 := true][0 := false] == c.answering;
  }

  /** The session loop ends its lobby and writes the start. */
  lemma StartIsWritten(lanes: nat, withRoster: bool, front: seq<Frame>)
    requires Gets(Open(lanes, withRoster), InLobbyAt(lanes, withRoster, front))
    ensures Gets(Open(lanes, withRoster), InLobbyAt(lanes, withRoster, front + [Started]).(session := StartWritten))
  {
    var open, c := Open(lanes, withRoster), InLobbyAt(lanes, withRoster, front);
    Onward(open, c, OfSession(LobbyEnds));
    Onward(open, c.(session := StartDue), OfSession(SendsStart(Delivered)));
  }

  lemma StartBegins(lanes: nat, withRoster: bool, front: seq<Frame>)
    requires Gets(Open(lanes, withRoster), InLobbyAt(lanes, withRoster, front))
    ensures Gets(Open(lanes, withRoster), PlayingAt(lanes, withRoster, front + [Started]))
  {
    var open := Open(lanes, withRoster);
    var c := InLobbyAt(lanes, withRoster, front + [Started]).(session := StartWritten);
    StartIsWritten(lanes, withRoster, front);
    Onward(open, c, OfSession(ChecksStart));
    var flagged := c.(session := StartFlagged, started := true);
    Onward(open, flagged, OfSession(SignalsStart));
    if withRoster {
      Onward(open, flagged.(session := Views, startSent := true), OfRoster(RosterWakes));
    }
  }

  lemma StartIsGivenUp(lanes: nat, withRoster: bool, front: seq<Frame>)
    requires Gets(Open(lanes, withRoster), InLobbyAt(lanes, withRoster, front))
    ensures Gets(Open(lanes, withRoster), GivenUpAt(lanes, withRoster, front + [Started]))
  {
    var open := Open(lanes, withRoster);
    var c := InLobbyAt(lanes, withRoster, front + [Started]).(session := StartWritten);
    StartIsWritten(lanes, withRoster, front);
    Onward(open, c, Cancels);
    Onward(open, c.(cancelled := true), OfSession(ChecksStart));
  }

  predicate Unclosed(sent: seq<Frame>) { forall i :: 0 <= i < |sent| ==> !IsClosing(sent[i]) }

  lemma FrontCanBeSent(lanes: nat, withRoster: bool, front: seq<Frame>, last: Frame)
    requires CanBeSent(lanes, withRoster, front + [last])
    ensures CanBeSent(lanes, withRoster, front) && Unclosed(front)
    ensures (last.Lobby? || last.Started? ==> Started !in front) && (last.View? || last.Roster? ==> Started in front)
    ensures (last.Roster? ==> withRoster) && (last.Answer? ==> lanes > 0) && (last.SessionEnded? ==> Started in front)
    ensures last.LobbyClosed? && Started in front ==> View !in front && Roster !in front
  {
    var sent := front + [last];
    OrderOfFront(front, last);
    assert sent[|front|] == last;
    assert forall f :: f in front ==> f in sent;
    forall i | 0 <= i < |front|
      ensures !IsClosing(front[i])
    {
      assert sent[i] == front[i];
    }
  }

  /** Before any closing, in the lobby while the start was not sent, and playing from then on. */
  lemma {:induction false} UnclosedIsSent(lanes: nat, withRoster: bool, sent: seq<Frame>)
    requires CanBeSent(lanes, withRoster, sent) && Unclosed(sent)
    ensures Gets(Open(lanes, withRoster),
                 if Started in sent then PlayingAt(lanes, withRoster, sent) else InLobbyAt(lanes, withRoster, sent))
  {
    var open := Open(lanes, withRoster);
    if sent == [] {
      Opens(open);
    } else {
      var front, last := sent[..|sent| - 1], sent[|sent| - 1];
      assert sent == front + [last];
      FrontCanBeSent(lanes, withRoster, front, last);
      UnclosedIsSent(lanes, withRoster, front);
      var c := if Started in front then PlayingAt(lanes, withRoster, front) else InLobbyAt(lanes, withRoster, front);
      match last
      case Lobby => Onward(open, c, OfSession(SendsLobby(Delivered)));
      case Started => StartBegins(lanes, withRoster, front);
      case View => Onward(open, c, OfSession(SendsView(Delivered)));
      case Roster => Onward(open, c, OfRoster(SendsRoster(Delivered)));
      case Answer => Answers(open, c);
    }
  }

  /** With the start given up right after it was written, only answers follow it. */
  lemma {:induction false} GivenUpIsSent(lanes: nat, withRoster: bool, sent: seq<Frame>)
    requires CanBeSent(lanes, withRoster, sent) && Unclosed(sent) && Started in sent && View !in sent && Roster !in sent
    ensures Gets(Open(lanes, withRoster), GivenUpAt(lanes, withRoster, sent))
  {
    var front, last := sent[..|sent| - 1], sent[|sent| - 1];
    assert sent == front + [last];
    FrontCanBeSent(lanes, withRoster, front, last);
    if last == Started {
      UnclosedIsSent(lanes, withRoster, front);
      StartIsGivenUp(lanes, withRoster, front);
    } else {
      assert Started in front;
      GivenUpIsSent(lanes, withRoster, front);
      Answers(Open(lanes, withRoster), GivenUpAt(lanes, withRoster, front));
    }
  }

  // --- The closing ---

  /** The streams are over, and the Runtime ends the connection with a Session's end to tell. */
  predicate ReadyToClose(c: Connection) {
    && c.session.SessionGone? && c.roster.RosterGone? && c.closer.AwaitingEnd? && c.streams == 0 && !c.closed
    && forall i :: 0 <= i < |c.answering| ==> !c.answering[i]
  }

  lemma ClosingIsTold(open: Connection, c: Connection)
    requires Gets(open, c) && ReadyToClose(c)
    ensures exists d :: Gets(open, d) && d.sent == c.sent + [ClosingFrame(c)]
  {
    Onward(open, c, OfCloser(RuntimeEnds(true)));
    Onward(open, c.(closer := AwaitingStreams(true)), OfCloser(StreamsDelivered));
    Onward(open, c.(closer := AwaitingLock(true)), OfCloser(CloserLocks));
    var telling := c.(closer := Telling(true));
    Onward(open, telling, OfCloser(CloserTells(Delivered)));
    assert Next(telling, OfCloser(CloserTells(Delivered))).sent == c.sent + [ClosingFrame(c)];
  }

  /** Once the session loop is leaving, both streams end. */
  lemma StreamsEnd(open: Connection, c: Connection) returns (d: Connection)
    requires Gets(open, c) && c.session.Leaving? && c.closer.AwaitingEnd? && !c.closed
    requires forall i :: 0 <= i < |c.answering| ==> !c.answering[i]
    requires c.roster.RosterLeaving? || c.roster.Rostering? || c.roster.RosterGone? || (c.roster.AwaitingStart? && !c.started)
    requires c.streams == if c.roster.RosterGone? then 1 else 2
    ensures Gets(open, d) && ReadyToClose(d) && d.sent == c.sent && d.started == c.started
  {
    Onward(open, c, OfSession(ClosesSent));
    d := c.(session := SentClosed, sessionSent := true);
    Onward(open, d, OfSession(SessionDone));
    d := d.(session := SessionGone, streams := d.streams - 1);
    if !d.roster.RosterGone? {
      if d.roster.AwaitingStart? {
        Onward(open, d, OfRoster(RosterWakes));
      } else if d.roster.Rostering? {
        Onward(open, d, OfRoster(RosterEnds));
      }
      d := d.(roster := RosterLeaving);
      Onward(open, d, OfRoster(RosterDone));
      d := d.(roster := RosterGone, streams := d.streams - 1);
    }
  }

  lemma LobbyCanClose(lanes: nat, withRoster: bool, front: seq<Frame>)
    requires Gets(Open(lanes, withRoster), InLobbyAt(lanes, withRoster, front))
    ensures exists d :: Gets(Open(lanes, withRoster), d) && d.sent == front + [LobbyClosed]
  {
    var open, c := Open(lanes, withRoster), InLobbyAt(lanes, withRoster, front);
    Onward(open, c, OfSession(LobbyEnds));
    Onward(open, c.(session := StartDue), OfSession(StartUnavailable));
    var d := StreamsEnd(open, c.(session := Leaving));
    ClosingIsTold(open, d);
  }

  lemma GameCanClose(lanes: nat, withRoster: bool, front: seq<Frame>)
    requires Gets(Open(lanes, withRoster), PlayingAt(lanes, withRoster, front))
    ensures exists d :: Gets(Open(lanes, withRoster), d) && d.sent == front + [SessionEnded]
  {
    var open, c := Open(lanes, withRoster), PlayingAt(lanes, withRoster, front);
    Onward(open, c, OfSession(ViewsEnd));
    var d := StreamsEnd(open, c.(session := Leaving));
    ClosingIsTold(open, d);
  }

  lemma GivenUpCanClose(lanes: nat, withRoster: bool, front: seq<Frame>)
    requires Gets(Open(lanes, withRoster), GivenUpAt(lanes, withRoster, front))
    ensures exists d :: Gets(Open(lanes, withRoster), d) && d.sent == front + [LobbyClosed]
  {
    var open := Open(lanes, withRoster);
    var d := StreamsEnd(open, GivenUpAt(lanes, withRoster, front));
    ClosingIsTold(open, d);
  }

  lemma AllSuchAreSent(lanes: nat, withRoster: bool, sent: seq<Frame>)
    requires CanBeSent(lanes, withRoster, sent)
    ensures exists d :: Gets(Open(lanes, withRoster), d) && d.sent == sent
  {
    if sent == [] || !IsClosing(sent[|sent| - 1]) {
      UnclosedIsSent(lanes, withRoster, sent);
    } else {
      var front, last := sent[..|sent| - 1], sent[|sent| - 1];
      assert sent == front + [last];
      FrontCanBeSent(lanes, withRoster, front, last);
      if last == LobbyClosed && Started in front {
        GivenUpIsSent(lanes, withRoster, front);
        GivenUpCanClose(lanes, withRoster, front);
      } else {
        UnclosedIsSent(lanes, withRoster, front);
        if last == LobbyClosed { LobbyCanClose(lanes, withRoster, front); } else { GameCanClose(lanes, withRoster, front); }
      }
    }
  }

  /** The messages a client can be sent, over every interleaving of its connection's loops,
      are exactly those in order: any lobby updates, the start, any views and rosters, with
      answers among them, and last a closing, which says the session ended once the start
      was sent, except that it may say the lobby closed when nothing but answers followed
      the start. */
  lemma SentIff(lanes: nat, withRoster: bool, sent: seq<Frame>)
    ensures (exists c :: Gets(Open(lanes, withRoster), c) && c.sent == sent) <==> CanBeSent(lanes, withRoster, sent)
  {
    if CanBeSent(lanes, withRoster, sent) {
      AllSuchAreSent(lanes, withRoster, sent);
    } else {
      forall c | Gets(Open(lanes, withRoster), c)
        ensures c.sent != sent
      {
        var steps :| IsRun(Open(lanes, withRoster), steps) && Run(Open(lanes, withRoster), steps) == c;
        OnlySuchIsSent(lanes, withRoster, steps);
      }
    }
  }
}
