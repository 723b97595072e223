/** The authorization server's transactions interleaved: each reads (locking the rows its
    queries lock), then commits or rolls back at any later point
    (identity/usecases/aiauthorization/service.go and its internal/repo/repo.go). */
module AiTransactions {

  import opened Options
  import opened AiAuthorization

  datatype Row = RequestRow(n: nat) | TokenRow(n: nat) | SessionRow(n: nat)

  /** The rows an operation's queries lock until its transaction ends. */
  function LocksOf(s: Store, op: Op): set<Row> {
    match op
    case Decide(_, i, _, _) => if i < |s.requests| then {RequestRow(i)} else {}
    case Exchange(code, _, _, _, _, _) =>
      var found := RequestByCode(s.requests, Sha256(code));
      if code.CodeSecret? && found.Some? then {RequestRow(found.value)} else {}
    case Refresh(token, _, _, _) => TokenLocks(s, token)
    case RevokeRefresh(token, _) => TokenLocks(s, token)
    case _ => {}
  }

  function TokenLocks(s: Store, token: Secret): set<Row> {
    var found := TokenByHash(s.tokens, Sha256(token));
    if token.RefreshSecret? && found.Some? then {TokenRow(found.value), SessionRow(s.tokens[found.value].session)} else {}
  }

  datatype Tx = Tx(op: Op, now: int, plan: Plan, locks: set<Row>)

  datatype Entry = Entry(op: Op, now: int, answer: Answer)

  /** The store, the open transactions, the secrets drawn so far, and the answers in the
      order they were settled. */
  datatype System = System(store: Store, txs: map<nat, Tx>, drawn: set<Secret>, log: seq<Entry>)

  datatype Event = Begins(id: nat, op: Op, now: int) | Commits(id: nat) | Aborts(id: nat)

  /** A row lock waits for its holder; a secret is drawn once. */
  predicate CanBegin(y: System, id: nat, op: Op, locking: bool) {
    && id !in y.txs && Draws(op) !! y.drawn
    && (locking ==> forall j :: j in y.txs ==> y.txs[j].locks !! LocksOf(y.store, op))
  }

  /** Of the writes, only revoking a session touches a row the transaction may not hold. */
  predicate CanCommit(y: System, id: nat, locking: bool) {
    && id in y.txs
    && (locking && y.txs[id].plan.RevokeSession? ==>
          forall j :: j in y.txs && j != id ==> SessionRow(y.txs[id].plan.session) !in y.txs[j].locks)
  }

  function Begun(y: System, id: nat, op: Op, now: int): System {
    var plan := PlanOf(y.store, op, now);
    if plan.WriteNothing? then y.(drawn := y.drawn + Draws(op), log := y.log + [Entry(op, now, plan.answer)])
    else y.(drawn := y.drawn + Draws(op), txs := y.txs[id := Tx(op, now, plan, LocksOf(y.store, op))])
  }

  function Committed(y: System, id: nat): System
    requires id in y.txs
  {
    var tx := y.txs[id];
    var (store, answer) := Perform(y.store, tx.plan);
    y.(store := store, txs := y.txs - {id}, log := y.log + [Entry(tx.op, tx.now, answer)])
  }

  /** With locking false, no transaction waits for another: only the conditional writes protect. */
  function Next(y: System, e: Event, locking: bool): System {
    match e
    case Begins(id, op, now) => if CanBegin(y, id, op, locking) then Begun(y, id, op, now) else y
    case Commits(id) => if CanCommit(y, id, locking) then Committed(y, id) else y
    case Aborts(id) => y.(txs := y.txs - {id})
  }

  function Run(y: System, events: seq<Event>, locking: bool): System
    decreases |events|
  {
    if events == [] then y else Run(Next(y, events[0], locking), events[1..], locking)
  }

  const EMPTY := System(Store([], [], []), map[], {}, [])

  // --- What every run keeps, even without the row locks ---

  function PlanDraws(plan: Plan): set<Secret> {
    match plan
    case DecideRequest(_, Approved(_, code, _, _)) => {code.secret}
    case GrantSession(_, _, hash, _, _) => {hash.secret}
    case RotateToken(_, hash, _, _) => {hash.secret}
    case _ => {}
  }

  /** The row a transaction will use is still the one its secret named. */
  predicate Targets(s: Store, op: Op, plan: Plan) {
    && (plan.GrantSession? ==>
          op.Exchange? && op.code.CodeSecret? && plan.request < |s.requests| && HasCode(s.requests[plan.request], Sha256(op.code)))
    && (plan.RotateToken? ==>
          op.Refresh? && op.token.RefreshSecret? && plan.token < |s.tokens| && s.tokens[plan.token].hash == Sha256(op.token))
  }

  predicate TxOk(s: Store, tx: Tx, drawn: set<Secret>) {
    && !tx.plan.WriteNothing? && PlanOk(s, tx.plan, drawn)
    && PlanDraws(tx.plan) <= Draws(tx.op) <= drawn && Targets(s, tx.op, tx.plan)
  }

  /** The secret an operation presents to be exchanged. */
  function Presented(op: Op): Option<Secret> {
    if op.Exchange? then Some(op.code) else if op.Refresh? then Some(op.token) else None
  }

  predicate SpentCode(s: Store, secret: Secret) {
    secret.CodeSecret?
    && exists q :: 0 <= q < |s.requests| && HasCode(s.requests[q], Sha256(secret)) && s.requests[q].decision.used.Some?
  }

  predicate SpentToken(s: Store, secret: Secret) {
    secret.RefreshSecret? && exists k :: 0 <= k < |s.tokens| && s.tokens[k].hash == Sha256(secret) && s.tokens[k].used
  }

  predicate Spent(s: Store, secret: Secret) { SpentCode(s, secret) || SpentToken(s, secret) }

  /** Every secret exchanged for tokens is spent, and was exchanged once. */
  predicate LogOk(s: Store, log: seq<Entry>) {
    && (forall k :: 0 <= k < |log| && log[k].answer.Tokens? ==> SpentBy(s, log[k].op))
    && (forall j, k :: 0 <= j < k < |log| && log[j].answer.Tokens? && log[k].answer.Tokens? ==>
          Presented(log[j].op) != Presented(log[k].op))
  }

  predicate SpentBy(s: Store, op: Op) { Presented(op).Some? && Spent(s, Presented(op).value) }

  ghost predicate Ok(y: System) {
    && SessionsOk(y.store) && SecretsOk(y.store, y.drawn)
    && (forall id :: id in y.txs ==> TxOk(y.store, y.txs[id], y.drawn))
    && (forall i, j :: i in y.txs && j in y.txs && i != j ==> Draws(y.txs[i].op) !! Draws(y.txs[j].op))
    && LogOk(y.store, y.log)
  }

  lemma PlanIsOk(s: Store, op: Op, now: int, drawn: set<Secret>)
    requires SecretsOk(s, drawn) && Draws(op) !! drawn
    ensures var plan := PlanOf(s, op, now);
            if plan.WriteNothing? then !plan.answer.Tokens? else TxOk(s, Tx(op, now, plan, LocksOf(s, op)), drawn + Draws(op))
  {
  }

  lemma StaysUnknown(s: Store, plan: Plan, hash: Hashed, drawn: set<Secret>)
    requires Unknown(s, hash) && PlanOk(s, plan, drawn) && hash.secret !in PlanDraws(plan)
    ensures Unknown(Perform(s, plan).0, hash)
  {
    var t := Perform(s, plan).0;
    if plan.DecideRequest? {
      forall q | 0 <= q < |t.requests|
        ensures !HasCode(t.requests[q], hash)
      {
        assert q != plan.request ==> t.requests[q] == s.requests[q];
      }
    }
  }

  lemma TxStaysOk(s: Store, plan: Plan, tx: Tx, drawn: set<Secret>)
    requires TxOk(s, tx, drawn) && PlanOk(s, plan, drawn) && PlanDraws(plan) !! PlanDraws(tx.plan)
    ensures TxOk(Perform(s, plan).0, tx, drawn)
  {
    PerformGrows(s, plan);
    match tx.plan
    case DecideRequest(_, Approved(_, code, _, _)) => StaysUnknown(s, plan, code, drawn);
    case GrantSession(_, _, hash, _, _) => StaysUnknown(s, plan, hash, drawn);
    case RotateToken(_, hash, _, _) => StaysUnknown(s, plan, hash, drawn);
    case _ =>
  }

  lemma SpentStays(s: Store, t: Store, secret: Secret)
    requires Grows(s, t) && Spent(s, secret)
    ensures Spent(t, secret)
  {
    if SpentCode(s, secret) {
      var q :| 0 <= q < |s.requests| && HasCode(s.requests[q], Sha256(secret)) && s.requests[q].decision.used.Some?;
      assert RequestGrows(s.requests[q], t.requests[q]);
    } else {
      var k :| 0 <= k < |s.tokens| && s.tokens[k].hash == Sha256(secret) && s.tokens[k].used;
      assert TokenGrows(s.tokens[k], t.tokens[k]);
    }
  }

  /** A write that hands out tokens spends a secret that was not spent. */
  lemma TokensSpend(s: Store, tx: Tx, drawn: set<Secret>)
    requires SecretsOk(s, drawn) && TxOk(s, tx, drawn) && Perform(s, tx.plan).1.Tokens?
    ensures SpentBy(Perform(s, tx.plan).0, tx.op) && !Spent(s, Presented(tx.op).value)
  {
    var t := Perform(s, tx.plan).0;
    if tx.plan.GrantSession? {
      assert HasCode(t.requests[tx.plan.request], Sha256(tx.op.code)) && t.requests[tx.plan.request].decision.used.Some?;
      assert SpentCode(t, tx.op.code);
    } else {
      assert t.tokens[tx.plan.token].hash == Sha256(tx.op.token) && t.tokens[tx.plan.token].used;
      assert SpentToken(t, tx.op.token);
    }
  }

  lemma LogStaysOk(s: Store, tx: Tx, drawn: set<Secret>, log: seq<Entry>)
    requires SecretsOk(s, drawn) && TxOk(s, tx, drawn) && LogOk(s, log)
    ensures LogOk(Perform(s, tx.plan).0, log + [Entry(tx.op, tx.now, Perform(s, tx.plan).1)])
  {
    var (t, answer) := Perform(s, tx.plan);
    PerformGrows(s, tx.plan);
    forall k | 0 <= k < |log| && log[k].answer.Tokens?
      ensures SpentBy(t, log[k].op)
    {
      SpentStays(s, t, Presented(log[k].op).value);
    }
    if answer.Tokens? {
      TokensSpend(s, tx, drawn);
    }
  }

  lemma BeginKeepsOk(y: System, id: nat, op: Op, now: int)
    requires Ok(y) && CanBegin(y, id, op, false)
    ensures Ok(Begun(y, id, op, now))
  {
    PlanIsOk(y.store, op, now, y.drawn);
  }

  lemma CommitKeepsOk(y: System, id: nat)
    requires Ok(y) && id in y.txs
    ensures Ok(Committed(y, id))
  {
    var tx := y.txs[id];
    PerformKeepsSessions(y.store, tx.plan, y.drawn);
    PerformKeepsSecrets(y.store, tx.plan, y.drawn);
    LogStaysOk(y.store, tx, y.drawn, y.log);
    forall j | j in y.txs && j != id
      ensures TxOk(Committed(y, id).store, y.txs[j], y.drawn)
    {
      TxStaysOk(y.store, tx.plan, y.txs[j], y.drawn);
    }
  }

  lemma NextKeepsOk(y: System, e: Event, locking: bool)
    requires Ok(y)
    ensures Ok(Next(y, e, locking))
  {
    match e
    case Begins(id, op, now) => if CanBegin(y, id, op, locking) { BeginKeepsOk(y, id, op, now); }
    case Commits(id) => if CanCommit(y, id, locking) { CommitKeepsOk(y, id); }
    case Aborts(_) =>
  }

  /** However transactions interleave, and even if no row lock were taken, each code and
      each refresh token is exchanged at most once, each session came from one code, and
      has one unused refresh token, its newest. */
  lemma {:induction false} EveryRunKeepsOk(y: System, events: seq<Event>, locking: bool)
    requires Ok(y)
    ensures Ok(Run(y, events, locking))
    decreases |events|
  {
    if events != [] {
      NextKeepsOk(y, events[0], locking);
      EveryRunKeepsOk(Next(y, events[0], locking), events[1..], locking);
    }
  }

  lemma EmptyIsOk()
    ensures Ok(EMPTY) && Locked(EMPTY.store, EMPTY)
  {
  }

  // --- With the row locks: as if one operation ran after another ---

  function Replay(s: Store, log: seq<Entry>): Store
    decreases |log|
  {
    if log == [] then s
    else
      var last := log[|log| - 1];
      Apply(Replay(s, log[..|log| - 1]), last.op, last.now).0
  }

  predicate AnswersTo(s: Store, e: Entry) { e.answer == Apply(s, e.op, e.now).1 }

  /** The answers given are those of the operations run alone, one after another. */
  predicate Serial(s: Store, log: seq<Entry>) {
    forall k :: 0 <= k < |log| ==> AnswersTo(Replay(s, log[..k]), log[k])
  }

  lemma ReplayAppends(s: Store, log: seq<Entry>, e: Entry)
    requires Serial(s, log) && AnswersTo(Replay(s, log), e)
    ensures Serial(s, log + [e]) && Replay(s, log + [e]) == Apply(Replay(s, log), e.op, e.now).0
  {
    var more := log + [e];
    assert more[..|log|] == log;
    forall k | 0 <= k < |more|
      ensures AnswersTo(Replay(s, more[..k]), more[k])
    {
      if k < |log| {
        assert more[..k] == log[..k];
      }
    }
  }

  function WritesOf(plan: Plan): set<Row> {
    match plan
    case DecideRequest(i, _) => {RequestRow(i)}
    case GrantSession(i, _, _, _, _) => {RequestRow(i)}
    case RotateToken(k, _, _, _) => {TokenRow(k)}
    case RevokeSession(i, _, _) => {SessionRow(i)}
    case _ => {}
  }

  /** A user's revocation reads its session without a lock, so another may revoke it first. */
  predicate Overtaken(s: Store, tx: Tx) {
    tx.op.RevokeConnection? && PlanOf(s, tx.op, tx.now) == WriteNothing(Revocation(false))
    && tx.plan == RevokeSession(tx.op.session, ByUser, false) && Revoked(s, tx.op.session)
  }

  predicate Current(s: Store, tx: Tx) {
    && tx.locks == LocksOf(s, tx.op) && !tx.plan.WriteNothing?
    && (PlanOf(s, tx.op, tx.now) == tx.plan || Overtaken(s, tx))
  }

  ghost predicate Locked(start: Store, y: System) {
    && (forall id :: id in y.txs ==> Current(y.store, y.txs[id]))
    && (forall i, j :: i in y.txs && j in y.txs && i != j ==> y.txs[i].locks !! y.txs[j].locks)
    && Serial(start, y.log) && Replay(start, y.log) == y.store
  }

  lemma CurrentCommitsAlike(s: Store, tx: Tx)
    requires Current(s, tx)
    ensures Perform(s, tx.plan) == Apply(s, tx.op, tx.now)
    ensures !tx.plan.RevokeSession? ==> WritesOf(tx.plan) <= tx.locks
  {
  }

  /** A write by another transaction, to rows this one did not lock, changes neither what
      this one would plan nor what it locked. */
  lemma StaysCurrent(s: Store, plan: Plan, tx: Tx, drawn: set<Secret>)
    requires Current(s, tx) && WritesOf(plan) !! tx.locks
    requires SecretsOk(s, drawn) && PlanOk(s, plan, drawn)
    ensures Current(Perform(s, plan).0, tx)
  {
    PerformGrows(s, plan);
    match tx.op
    case Exchange(code, _, _, _, _, _) => CodeStays(s, plan, code, drawn);
    case Refresh(token, _, _, _) => TokenStays(s, plan, token, drawn);
    case RevokeRefresh(token, _) => TokenStays(s, plan, token, drawn);
    case RevokeConnection(_, i) => ConnectionStays(s, plan, tx);
    case Decide(_, i, _, _) => assert RequestRow(i) in tx.locks;
    case _ =>
  }

  lemma ConnectionStays(s: Store, plan: Plan, tx: Tx)
    requires Current(s, tx) && tx.op.RevokeConnection?
    ensures Current(Perform(s, plan).0, tx)
  {
    var t := Perform(s, plan).0;
    PerformGrows(s, plan);
    assert SessionGrows(s.sessions[tx.op.session], t.sessions[tx.op.session]);
  }

  lemma CodeStays(s: Store, plan: Plan, code: Secret, drawn: set<Secret>)
    requires SecretsOk(s, drawn) && PlanOk(s, plan, drawn)
    requires var found := RequestByCode(s.requests, Sha256(code)); found.Some? && RequestRow(found.value) !in WritesOf(plan)
    ensures var (t, q) := (Perform(s, plan).0, RequestByCode(s.requests, Sha256(code)).value);
            RequestByCode(t.requests, Sha256(code)) == Some(q) && t.requests[q] == s.requests[q]
  {
    var (t, q) := (Perform(s, plan).0, RequestByCode(s.requests, Sha256(code)).value);
    PerformGrows(s, plan);
    PerformKeepsSecrets(s, plan, drawn);
    assert t.requests[q] == s.requests[q];
    CodeFound(t, drawn, q, Sha256(code));
  }

  lemma TokenStays(s: Store, plan: Plan, token: Secret, drawn: set<Secret>)
    requires WritesOf(plan) !! TokenLocks(s, token)
    requires SecretsOk(s, drawn) && PlanOk(s, plan, drawn)
    requires token.RefreshSecret? && TokenByHash(s.tokens, Sha256(token)).Some?
    ensures var (t, k) := (Perform(s, plan).0, TokenByHash(s.tokens, Sha256(token)).value);
            && TokenByHash(t.tokens, Sha256(token)) == Some(k) && t.tokens[k] == s.tokens[k]
            && (s.tokens[k].session < |s.sessions| ==>
                  s.tokens[k].session < |t.sessions| && t.sessions[s.tokens[k].session] == s.sessions[s.tokens[k].session])
  {
    var (t, k) := (Perform(s, plan).0, TokenByHash(s.tokens, Sha256(token)).value);
    PerformGrows(s, plan);
    PerformKeepsSecrets(s, plan, drawn);
    assert TokenRow(k) in TokenLocks(s, token) && SessionRow(s.tokens[k].session) in TokenLocks(s, token);
    assert t.tokens[k] == s.tokens[k];
    TokenFound(t, drawn, k);
  }

  lemma BeginKeepsLocked(start: Store, y: System, id: nat, op: Op, now: int)
    requires Locked(start, y) && CanBegin(y, id, op, true)
    ensures Locked(start, Begun(y, id, op, now))
  {
    var plan := PlanOf(y.store, op, now);
    if plan.WriteNothing? {
      ReplayAppends(start, y.log, Entry(op, now, plan.answer));
    }
  }

  lemma CommitKeepsLocked(start: Store, y: System, id: nat)
    requires Ok(y) && Locked(start, y) && CanCommit(y, id, true)
    ensures Locked(start, Committed(y, id))
  {
    var tx := y.txs[id];
    CurrentCommitsAlike(y.store, tx);
    ReplayAppends(start, y.log, Entry(tx.op, tx.now, Perform(y.store, tx.plan).1));
    forall j | j in y.txs && j != id
      ensures Current(Committed(y, id).store, y.txs[j])
    {
      assert WritesOf(tx.plan) !! y.txs[j].locks;
      StaysCurrent(y.store, tx.plan, y.txs[j], y.drawn);
    }
  }

  lemma NextKeepsLocked(start: Store, y: System, e: Event)
    requires Ok(y) && Locked(start, y)
    ensures Ok(Next(y, e, true)) && Locked(start, Next(y, e, true))
  {
    NextKeepsOk(y, e, true);
    match e
    case Begins(id, op, now) => if CanBegin(y, id, op, true) { BeginKeepsLocked(start, y, id, op, now); }
    case Commits(id) => if CanCommit(y, id, true) { CommitKeepsLocked(start, y, id); }
    case Aborts(_) =>
  }

  /** Serializability: in every run with the row locks, the store and every answer are
      what the operations give run alone in the order they were settled. */
  lemma {:induction false} EveryRunIsSerial(start: Store, y: System, events: seq<Event>)
    requires Ok(y) && Locked(start, y)
    ensures var z := Run(y, events, true); Ok(z) && Locked(start, z)
    decreases |events|
  {
    if events != [] {
      NextKeepsLocked(start, y, events[0]);
      EveryRunIsSerial(start, Next(y, events[0], true), events[1..]);
    }
  }

  lemma HoldsWhatItRevokes(s: Store, tx: Tx, i: nat)
    requires Current(s, tx) && SessionRow(i) in tx.locks && tx.plan.RevokeSession?
    ensures SessionRow(tx.plan.session) in tx.locks
  {
  }

  /** While any transaction is open, one of them can commit, so those that hold rows never
      wait for each other in a circle. Those still waiting for rows are not open yet; see
      NoCircleOfWaits for them. */
  lemma SomeoneCanCommit(start: Store, y: System, id: nat)
    requires Locked(start, y) && id in y.txs
    ensures exists j :: CanCommit(y, j, true)
  {
    if !CanCommit(y, id, true) {
      var i := y.txs[id].plan.session;
      var j :| j in y.txs && j != id && SessionRow(i) in y.txs[j].locks;
      if y.txs[j].plan.RevokeSession? {
        HoldsWhatItRevokes(y.store, y.txs[j], i);
      }
      assert CanCommit(y, j, true);
    }
  }

  // --- Transactions still waiting for rows ---

  /** Requests are locked before refresh tokens, and those before sessions. */
  function Rank(row: Row): nat { match row case RequestRow(_) => 0 case TokenRow(_) => 1 case SessionRow(_) => 2 }

  /** The rows an operation comes to hold, in the order it asks for them: those its query
      locks, then the session it revokes, if it is not among them. */
  function Acquires(s: Store, op: Op, now: int): seq<Row> {
    var read :=
      match op
      case Refresh(token, _, _, _) => TokenThenSession(s, token)
      case RevokeRefresh(token, _) => TokenThenSession(s, token)
      case Decide(_, i, _, _) => if i < |s.requests| then [RequestRow(i)] else []
      case Exchange(code, _, _, _, _, _) =>
        var found := RequestByCode(s.requests, Sha256(code));
        if code.CodeSecret? && found.Some? then [RequestRow(found.value)] else []
      case _ => [];
    var plan := PlanOf(s, op, now);
    if plan.RevokeSession? && SessionRow(plan.session) !in read then read + [SessionRow(plan.session)] else read
  }

  function TokenThenSession(s: Store, token: Secret): seq<Row> {
    var found := TokenByHash(s.tokens, Sha256(token));
    if token.RefreshSecret? && found.Some? then [TokenRow(found.value), SessionRow(s.tokens[found.value].session)] else []
  }

  predicate Rising(rows: seq<Row>) { forall j, k :: 0 <= j < k < |rows| ==> Rank(rows[j]) < Rank(rows[k]) }

  /** Every operation asks for its rows in rising rank, and has asked for all it reads
      locked and all it writes. */
  lemma AcquiresInOrder(s: Store, op: Op, now: int)
    ensures var rows := Acquires(s, op, now);
            && Rising(rows)
            && (forall row :: row in LocksOf(s, op) + WritesOf(PlanOf(s, op, now)) ==> row in rows)
  {
  }

  /** A transaction that asks for rows, and has the first got of them. */
  datatype Waiter = Waiter(rows: seq<Row>, got: nat)

  predicate Waits(w: Waiter) { w.got < |w.rows| }

  predicate Holds(w: Waiter, row: Row) { w.got <= |w.rows| && row in w.rows[..w.got] }

  ghost predicate Blocked(ws: map<nat, Waiter>, id: nat) {
    id in ws && Waits(ws[id]) && exists j :: j in ws && j != id && Holds(ws[j], ws[id].rows[ws[id].got])
  }

  /** Transactions that ask in rising rank never wait for each other in a circle: whatever
      each holds and waits for, one of them has all its rows or waits for a row nobody holds. */
  lemma {:induction false} NoCircleOfWaits(ws: map<nat, Waiter>, id: nat)
    requires id in ws && forall j :: j in ws ==> Rising(ws[j].rows)
    ensures exists free :: free in ws && !Blocked(ws, free)
    decreases if Waits(ws[id]) then 3 - Rank(ws[id].rows[ws[id].got]) else 0
  {
    if Blocked(ws, id) {
      var wanted := ws[id].rows[ws[id].got];
      var j :| j in ws && j != id && Holds(ws[j], wanted);
      if Waits(ws[j]) {
        var k :| 0 <= k < ws[j].got && ws[j].rows[..ws[j].got][k] == wanted;
        assert Rank(ws[j].rows[k]) < Rank(ws[j].rows[ws[j].got]);
        NoCircleOfWaits(ws, j);
      } else {
        assert !Blocked(ws, j);
      }
    }
  }

  // --- Revocation is final ---

  predicate Grants(answer: Answer, session: nat) { answer.Tokens? && answer.session == session }

  lemma RevokedGrantsNothing(s: Store, op: Op, now: int, session: nat)
    requires Revoked(s, session)
    ensures Revoked(Apply(s, op, now).0, session) && !Grants(Apply(s, op, now).1, session)
  {
    PerformGrows(s, PlanOf(s, op, now));
    assert SessionGrows(s.sessions[session], Apply(s, op, now).0.sessions[session]);
  }

  /** The later log only adds answers, and none of them grants the connection tokens. */
  predicate NeverAgain(y: System, z: System, session: nat) {
    && Revoked(z.store, session) && y.log <= z.log
    && forall k :: |y.log| <= k < |z.log| ==> !Grants(z.log[k].answer, session)
  }

  lemma NextGrantsNothing(start: Store, y: System, e: Event, session: nat)
    requires Ok(y) && Locked(start, y) && Revoked(y.store, session)
    ensures NeverAgain(y, Next(y, e, true), session)
  {
    match e
    case Begins(_, op, now) => RevokedGrantsNothing(y.store, op, now, session);
    case Commits(id) =>
      if CanCommit(y, id, true) {
        CurrentCommitsAlike(y.store, y.txs[id]);
        RevokedGrantsNothing(y.store, y.txs[id].op, y.txs[id].now, session);
      }
    case Aborts(_) =>
  }

  /** Once a connection is revoked, whatever transactions were open and whatever follows,
      no code and no refresh token is exchanged for it again and no access token of it is
      accepted. */
  lemma {:induction false} RevocationIsFinal(start: Store, y: System, events: seq<Event>, session: nat)
    requires Ok(y) && Locked(start, y) && Revoked(y.store, session)
    ensures NeverAgain(y, Run(y, events, true), session)
    ensures forall a: Access, now: int :: a.connection == session ==> !AccessAccepted(Run(y, events, true).store, a, now)
    decreases |events|
  {
    if events != [] {
      NextKeepsLocked(start, y, events[0]);
      NextGrantsNothing(start, y, events[0], session);
      RevocationIsFinal(start, Next(y, events[0], true), events[1..], session);
    }
  }

  /** The refusal of a used secret is answered with its connection revoked for good. */
  lemma ReuseEndsTheConnection(start: Store, y: System, id: nat, events: seq<Event>)
    requires Ok(y) && Locked(start, y) && CanCommit(y, id, true) && Perform(y.store, y.txs[id].plan).1.ReuseDetected?
    ensures exists session: nat ::
              && (UsedCode(y.store, y.txs[id].op, session) || UsedToken(y.store, y.txs[id].op, session))
              && NeverAgain(Committed(y, id), Run(Committed(y, id), events, true), session)
  {
    var tx := y.txs[id];
    CommitKeepsOk(y, id);
    CommitKeepsLocked(start, y, id);
    CurrentCommitsAlike(y.store, tx);
    OnlyReuseWritesOnRefusal(y.store, y.drawn, tx.op, tx.now);
    var session: nat :| UsedCode(y.store, tx.op, session) || UsedToken(y.store, tx.op, session);
    RevocationIsFinal(start, Committed(y, id), events, session);
  }

  // --- Without the lock on the connection's row ---

  const OldToken := RefreshSecret(1)
  const RefreshOnce := Refresh(OldToken, "app", "", RefreshSecret(2))
  const RevokeOnce := RevokeConnection("user", 0)

  const Connected := Store(
    [Request("app", "", S256(""), "mcp", 600, Approved("user", Sha256(CodeSecret(0)), 120, Some(0)))],
    [Session("user", "app", "mcp", None)],
    [Token(Sha256(OldToken), 0, 1000, false)])

  /** A refresh that has read its connection before the user revokes it, and commits after,
      would hand out tokens for a revoked connection: only the lock its query takes on the
      connection's row makes revocation final. */
  lemma WithoutLocksRevocationIsNotFinal()
    ensures var y := System(Connected, map[], {CodeSecret(0), OldToken}, []);
            var both := Next(Next(y, Begins(0, RefreshOnce, 5), false), Begins(1, RevokeOnce, 6), false);
            var revoked := Next(both, Commits(1), false);
            && Ok(y) && Locked(Connected, y)
            && Revoked(revoked.store, 0) && !NeverAgain(revoked, Next(revoked, Commits(0), false), 0)
            && !CanCommit(both, 1, true)
  {
    var y := System(Connected, map[], {CodeSecret(0), OldToken}, []);
    ConnectedIsOk(y);
    assert TokenByHash(Connected.tokens, Sha256(OldToken)) == Some(0);
    var first := Next(y, Begins(0, RefreshOnce, 5), false);
    assert first.txs[0].plan == RotateToken(0, Sha256(RefreshSecret(2)), RefreshSecret(2), 5);
    var both := Next(first, Begins(1, RevokeOnce, 6), false);
    assert both.txs[0] == first.txs[0] && both.txs[1].plan == RevokeSession(0, ByUser, false);
    assert SessionRow(0) in both.txs[0].locks;
    var revoked := Next(both, Commits(1), false);
    assert revoked.txs[0] == first.txs[0] && revoked.store.tokens == Connected.tokens;
    var z := Next(revoked, Commits(0), false);
    assert Grants(z.log[1].answer, 0);
  }

  lemma ConnectedIsOk(y: System)
    requires y == System(Connected, map[], {CodeSecret(0), OldToken}, [])
    ensures Ok(y) && Locked(Connected, y)
  {
    assert UsedBy(Connected, 0, 0);
    assert LiveToken(Connected, 0, 0);
  }
}
