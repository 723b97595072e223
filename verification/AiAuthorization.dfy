/** Identity's OAuth authorization server for AI applications: one-time codes, rotating
    refresh tokens, reuse detection and revocation
    (identity/usecases/aiauthorization/service.go). Rows are numbered by their position;
    a secret's hash is a constructor of its own, so it is injective and nothing more. */
module AiAuthorization {
  import opened Options


  /** A presented secret; the number stands for its random bytes. */
  datatype Secret = CodeSecret(n: nat) | RefreshSecret(n: nat) | Malformed

  datatype Hashed = Sha256(secret: Secret)

  /** A verifier, well formed as section 4.1 of RFC 7636 says or not, and its S256 challenge. */
  datatype Verifier = Verifier(text: string, wellFormed: bool)

  datatype Challenge = S256(text: string)

  predicate VerifyPKCE(v: Verifier, c: Challenge) { v.wellFormed && S256(v.text) == c }

  // Seconds.
  const REQUEST_LIFETIME := 600
  const CODE_LIFETIME := 120
  const REFRESH_LIFETIME := 30 * 24 * 3600
  const ACCESS_LIFETIME := 3600
  const CLOCK_SKEW := 60

  datatype Reason = ByUser | ByClient | CodeReuse | RefreshReuse

  datatype Decision = Undecided | Denied(user: string) | Approved(user: string, code: Hashed, codeExpiresAt: int, used: Option<nat>)

  datatype Request = Request(client: string, redirectUri: string, challenge: Challenge, resource: string, expiresAt: int, decision: Decision)

  datatype Session = Session(user: string, client: string, resource: string, revoked: Option<Reason>)

  datatype Token = Token(hash: Hashed, session: nat, expiresAt: int, used: bool)

  datatype Store = Store(requests: seq<Request>, sessions: seq<Session>, tokens: seq<Token>)

  // --- Looking rows up ---

  predicate HasCode(r: Request, code: Hashed) { r.decision.Approved? && r.decision.code == code }

  function RequestByCode(requests: seq<Request>, code: Hashed): (found: Option<nat>)
    ensures found.Some? ==> found.value < |requests| && HasCode(requests[found.value], code)
    ensures found.None? ==> forall i :: 0 <= i < |requests| ==> !HasCode(requests[i], code)
  {
    if requests == [] then None
    else if HasCode(requests[|requests| - 1], code) then Some(|requests| - 1)
    else RequestByCode(requests[..|requests| - 1], code)
  }

  function TokenByHash(tokens: seq<Token>, hash: Hashed): (found: Option<nat>)
    ensures found.Some? ==> found.value < |tokens| && tokens[found.value].hash == hash
    ensures found.None? ==> forall i :: 0 <= i < |tokens| ==> tokens[i].hash != hash
  {
    if tokens == [] then None
    else if tokens[|tokens| - 1].hash == hash then Some(|tokens| - 1)
    else TokenByHash(tokens[..|tokens| - 1], hash)
  }

  function TrimRight(s: string): string {
    if s != "" && s[|s| - 1] == '/' then TrimRight(s[..|s| - 1]) else s
  }

  predicate ResourceMatches(asked: string, granted: string) { asked == "" || TrimRight(asked) == granted }

  function Slashes(n: nat): string { seq(n, _ => '/') }

  predicate EndsInSlash(s: string) { s != "" && s[|s| - 1] == '/' }

  lemma {:induction false} TrimmedSplits(s: string) returns (n: nat)
    ensures s == TrimRight(s) + Slashes(n) && !EndsInSlash(TrimRight(s))
  {
    if EndsInSlash(s) {
      n := TrimmedSplits(s[..|s| - 1]);
      assert TrimRight(s) + Slashes(n + 1) == TrimRight(s) + Slashes(n) + ['/'];
      n := n + 1;
    } else {
      n := 0;
    }
  }

  lemma {:induction false} SlashesAreTrimmed(s: string, n: nat)
    requires !EndsInSlash(s)
    ensures TrimRight(s + Slashes(n)) == s
  {
    if n > 0 {
      assert (s + Slashes(n))[..|s + Slashes(n)| - 1] == s + Slashes(n - 1);
      SlashesAreTrimmed(s, n - 1);
    } else {
      assert s + Slashes(0) == s;
    }
  }

  /** A resource asked for matches the one granted if and only if none was named or it is
      that one with any slashes after it, the one granted ending in none. */
  lemma ResourceMatchesIff(asked: string, granted: string)
    ensures ResourceMatches(asked, granted) <==> asked == "" || (!EndsInSlash(granted) && exists n :: asked == granted + Slashes(n))
  {
    var n := TrimmedSplits(asked);
    if !EndsInSlash(granted) && exists k :: asked == granted + Slashes(k) {
      var k :| asked == granted + Slashes(k);
      SlashesAreTrimmed(granted, k);
    }
  }

  // --- Operations ---

  /** A signed access token, genuine because only the server issues them. */
  datatype Access = Access(user: string, connection: nat, client: string, issuedAt: int, expiresAt: int)

  predicate Verifies(a: Access, now: int) { now < a.expiresAt + CLOCK_SKEW && a.issuedAt <= now + CLOCK_SKEW }

  /** New secrets an operation draws are named in it. */
  datatype Op =
    | Start(client: string, redirectUri: string, challenge: Challenge, resource: string)
    | Decide(user: string, request: nat, approve: bool, newSecret: Secret)
    | Exchange(code: Secret, client: string, redirectUri: string, verifier: Verifier, resource: string, newSecret: Secret)
    | Refresh(token: Secret, client: string, resource: string, newSecret: Secret)
    | RevokeRefresh(token: Secret, client: string)
    | RevokeAccess(access: Access, client: string)
    | RevokeConnection(user: string, session: nat)

  datatype Answer =
    | Started(request: nat)
    | Decided(approved: bool)
    | NotFound
    | Tokens(session: nat, refresh: Secret, access: Access)
    | InvalidGrant
    | InvalidTarget
    | ReuseDetected
    | Revocation(done: bool)

  /** What a transaction decides from the rows it read and locked: to write nothing, or
      what it writes before committing. */
  datatype Plan =
    | WriteNothing(answer: Answer)
    | NewRequest(made: Request)
    | DecideRequest(request: nat, decision: Decision)
    | GrantSession(request: nat, granted: Session, hash: Hashed, refresh: Secret, now: int)
    | RotateToken(token: nat, hash: Hashed, refresh: Secret, now: int)
    | RevokeSession(session: nat, reason: Reason, detected: bool)

  function PlanDecide(s: Store, op: Op, now: int): Plan
    requires op.Decide?
  {
    if op.request >= |s.requests| || !s.requests[op.request].decision.Undecided? || now >= s.requests[op.request].expiresAt
    then WriteNothing(NotFound)
    else DecideRequest(op.request,
                       if op.approve then Approved(op.user, Sha256(op.newSecret), now + CODE_LIFETIME, None) else Denied(op.user))
  }

  function PlanExchange(s: Store, op: Op, now: int): Plan
    requires op.Exchange?
  {
    if !op.code.CodeSecret? then WriteNothing(InvalidGrant)
    else match RequestByCode(s.requests, Sha256(op.code))
      case None => WriteNothing(InvalidGrant)
      case Some(i) =>
        var r := s.requests[i];
        if r.decision.used.Some? then RevokeSession(r.decision.used.value, CodeReuse, true)
        else if now >= r.decision.codeExpiresAt then WriteNothing(InvalidGrant)
        else if r.client != op.client then WriteNothing(InvalidGrant)
        else if op.redirectUri != "" && op.redirectUri != r.redirectUri then WriteNothing(InvalidGrant)
        else if !VerifyPKCE(op.verifier, r.challenge) then WriteNothing(InvalidGrant)
        else if !ResourceMatches(op.resource, r.resource) then WriteNothing(InvalidTarget)
        else GrantSession(i, Session(r.decision.user, r.client, r.resource, None), Sha256(op.newSecret), op.newSecret, now)
  }

  function PlanRefresh(s: Store, op: Op, now: int): Plan
    requires op.Refresh?
  {
    if !op.token.RefreshSecret? then WriteNothing(InvalidGrant)
    else match TokenByHash(s.tokens, Sha256(op.token))
      case None => WriteNothing(InvalidGrant)
      case Some(i) =>
        var t := s.tokens[i];
        if t.session >= |s.sessions| then WriteNothing(InvalidGrant)
        else
          var c := s.sessions[t.session];
          if c.revoked.Some? then WriteNothing(InvalidGrant)
          else if t.used then RevokeSession(t.session, RefreshReuse, true)
          else if now >= t.expiresAt then WriteNothing(InvalidGrant)
          else if c.client != op.client then WriteNothing(InvalidGrant)
          else if !ResourceMatches(op.resource, c.resource) then WriteNothing(InvalidTarget)
          else RotateToken(i, Sha256(op.newSecret), op.newSecret, now)
  }

  function PlanOf(s: Store, op: Op, now: int): Plan {
    match op
    case Start(client, redirectUri, challenge, resource) =>
      NewRequest(Request(client, redirectUri, challenge, resource, now + REQUEST_LIFETIME, Undecided))
    case Decide(_, _, _, _) => PlanDecide(s, op, now)
    case Exchange(_, _, _, _, _, _) => PlanExchange(s, op, now)
    case Refresh(_, _, _, _) => PlanRefresh(s, op, now)
    case RevokeRefresh(token, client) =>
      (match TokenByHash(s.tokens, Sha256(token))
       case Some(i) =>
         if token.RefreshSecret? && s.tokens[i].session < |s.sessions| && s.sessions[s.tokens[i].session].client == client
         then RevokeSession(s.tokens[i].session, ByClient, false) else WriteNothing(Revocation(false))
       case None => WriteNothing(Revocation(false)))
    case RevokeAccess(access, client) =>
      if Verifies(access, now) && access.client == client && access.connection < |s.sessions|
      then RevokeSession(access.connection, ByClient, false) else WriteNothing(Revocation(false))
    case RevokeConnection(user, session) =>
      if session < |s.sessions| && s.sessions[session].user == user && s.sessions[session].revoked.None?
      then RevokeSession(session, ByUser, false) else WriteNothing(Revocation(false))
  }

  function AccessFor(c: Session, session: nat, now: int): Access {
    Access(c.user, session, c.client, now, now + ACCESS_LIFETIME)
  }

  /** The writes, each conditional one on the row as it is when written; one that finds its
      row already used rolls everything back. */
  function Perform(s: Store, plan: Plan): (Store, Answer) {
    match plan
    case WriteNothing(answer) => (s, answer)
    case NewRequest(request) => (s.(requests := s.requests + [request]), Started(|s.requests|))
    case DecideRequest(i, decision) =>
      if i >= |s.requests| || !s.requests[i].decision.Undecided? then (s, NotFound)
      else (s.(requests := s.requests[i := s.requests[i].(decision := decision)]), Decided(decision.Approved?))
    case GrantSession(i, session, hash, refresh, now) =>
      if i >= |s.requests| || !s.requests[i].decision.Approved? || s.requests[i].decision.used.Some? then (s, InvalidGrant)
      else
        var id, r := |s.sessions|, s.requests[i];
        (Store(s.requests[i := r.(decision := r.decision.(used := Some(id)))],
               s.sessions + [session],
               s.tokens + [Token(hash, id, now + REFRESH_LIFETIME, false)]),
         Tokens(id, refresh, AccessFor(session, id, now)))
    case RotateToken(i, hash, refresh, now) =>
      if i >= |s.tokens| || s.tokens[i].used || s.tokens[i].session >= |s.sessions| then (s, InvalidGrant)
      else
        var t := s.tokens[i];
        (s.(tokens := s.tokens[i := t.(used := true)] + [Token(hash, t.session, now + REFRESH_LIFETIME, false)]),
         Tokens(t.session, refresh, AccessFor(s.sessions[t.session], t.session, now)))
    case RevokeSession(i, reason, detected) =>
      if i >= |s.sessions| || s.sessions[i].revoked.Some? then (s, if detected then ReuseDetected else Revocation(false))
      else (s.(sessions := s.sessions[i := s.sessions[i].(revoked := Some(reason))]),
            if detected then ReuseDetected else Revocation(true))
  }

  /** One operation with nothing else happening. */
  function Apply(s: Store, op: Op, now: int): (Store, Answer) { Perform(s, PlanOf(s, op, now)) }

  /** Whether a signed access token is accepted. */
  predicate AccessAccepted(s: Store, a: Access, now: int) {
    Verifies(a, now) && a.connection < |s.sessions|
    && s.sessions[a.connection].revoked.None? && s.sessions[a.connection].user == a.user
  }

  // --- What the store keeps ---

  predicate LiveToken(s: Store, session: nat, k: nat) {
    && k < |s.tokens| && s.tokens[k].session == session && !s.tokens[k].used
    && forall j :: 0 <= j < |s.tokens| && s.tokens[j].session == session && j != k ==> j < k && s.tokens[j].used
  }

  predicate UsedBy(s: Store, request: nat, session: nat) {
    request < |s.requests| && s.requests[request].decision.Approved? && s.requests[request].decision.used == Some(session)
  }

  ghost predicate FromACode(s: Store, session: nat) { exists q: nat :: UsedBy(s, q, session) }

  ghost predicate HasLiveToken(s: Store, session: nat) { exists k: nat :: LiveToken(s, session, k) }

  /** Each session came from one code, and has one unused refresh token, its newest. */
  ghost predicate SessionsOk(s: Store) {
    && (forall i: nat :: i < |s.sessions| ==> FromACode(s, i) && HasLiveToken(s, i))
    && (forall q: nat, r: nat, i: nat :: UsedBy(s, q, i) && UsedBy(s, r, i) ==> q == r)
    && (forall q: nat, i: nat :: UsedBy(s, q, i) ==> i < |s.sessions|)
    && (forall k :: 0 <= k < |s.tokens| ==> s.tokens[k].session < |s.sessions|)
  }

  /** Every secret the store knows was drawn, and no two rows share one. */
  predicate SecretsOk(s: Store, drawn: set<Secret>) {
    && (forall k :: 0 <= k < |s.tokens| ==> s.tokens[k].hash.secret in drawn)
    && (forall q :: 0 <= q < |s.requests| && s.requests[q].decision.Approved? ==> s.requests[q].decision.code.secret in drawn)
    && (forall j, k :: 0 <= j < k < |s.tokens| ==> s.tokens[j].hash != s.tokens[k].hash)
    && (forall q, r :: 0 <= q < r < |s.requests| && s.requests[q].decision.Approved? && s.requests[r].decision.Approved? ==>
          s.requests[q].decision.code != s.requests[r].decision.code)
  }

  function Draws(op: Op): set<Secret> {
    if op.Decide? || op.Exchange? || op.Refresh? then {op.newSecret} else {}
  }

  /** Nothing written is ever unwritten. */
  predicate RequestGrows(a: Request, b: Request) {
    && b.(decision := a.decision) == a
    && (a.decision.Denied? ==> b == a)
    && (a.decision.Approved? ==> b.decision.Approved? && b.decision.(used := a.decision.used) == a.decision)
    && (a.decision.Approved? && a.decision.used.Some? ==> b == a)
  }

  predicate Grows(s: Store, t: Store) {
    && |s.requests| <= |t.requests| && |s.sessions| <= |t.sessions| && |s.tokens| <= |t.tokens|
    && (forall i :: 0 <= i < |s.requests| ==> RequestGrows(s.requests[i], t.requests[i]))
    && (forall i :: 0 <= i < |s.sessions| ==> SessionGrows(s.sessions[i], t.sessions[i]))
    && (forall i :: 0 <= i < |s.tokens| ==> TokenGrows(s.tokens[i], t.tokens[i]))
  }

  predicate SessionGrows(a: Session, b: Session) {
    b.(revoked := a.revoked) == a && (a.revoked.Some? ==> b.revoked == a.revoked)
  }

  predicate TokenGrows(a: Token, b: Token) { b.(used := a.used) == a && (a.used ==> b.used) }

  // --- Every plan keeps it ---

  /** A plan's new secret is known to nobody yet, and the connection it grants is live. */
  predicate PlanOk(s: Store, plan: Plan, drawn: set<Secret>) {
    match plan
    case NewRequest(made) => made.decision.Undecided?
    case DecideRequest(_, Approved(_, code, _, used)) => used.None? && code.secret in drawn && Unknown(s, code)
    case GrantSession(_, granted, hash, _, _) => granted.revoked.None? && hash.secret in drawn && Unknown(s, hash)
    case RotateToken(_, hash, _, _) => hash.secret in drawn && Unknown(s, hash)
    case _ => true
  }

  predicate Unknown(s: Store, hash: Hashed) {
    && (forall k :: 0 <= k < |s.tokens| ==> s.tokens[k].hash != hash)
    && (forall q :: 0 <= q < |s.requests| ==> !HasCode(s.requests[q], hash))
  }

  lemma PerformGrows(s: Store, plan: Plan)
    ensures Grows(s, Perform(s, plan).0)
  {
  }

  lemma PerformKeepsSecrets(s: Store, plan: Plan, drawn: set<Secret>)
    requires SecretsOk(s, drawn) && PlanOk(s, plan, drawn)
    ensures SecretsOk(Perform(s, plan).0, drawn)
  {
    var t := Perform(s, plan).0;
    if plan.DecideRequest? && plan.decision.Approved? && t != s {
      forall q, r | 0 <= q < r < |t.requests| && t.requests[q].decision.Approved? && t.requests[r].decision.Approved?
        ensures t.requests[q].decision.code != t.requests[r].decision.code
      {
        assert q != plan.request ==> t.requests[q] == s.requests[q] && !HasCode(s.requests[q], plan.decision.code);
        assert r != plan.request ==> t.requests[r] == s.requests[r] && !HasCode(s.requests[r], plan.decision.code);
      }
    }
  }

  lemma PerformKeepsSessions(s: Store, plan: Plan, drawn: set<Secret>)
    requires SessionsOk(s) && PlanOk(s, plan, drawn)
    ensures SessionsOk(Perform(s, plan).0)
  {
    var t := Perform(s, plan).0;
    if t != s {
      match plan
      case GrantSession(q, _, _, _, _) => GrantKeepsSessions(s, t, q);
      case RotateToken(k, _, _, _) => RotateKeepsSessions(s, t, k);
      case _ => SameUsesKeepSessions(s, t);
    }
  }

  /** Writes that use no code and touch no token. */
  lemma SameUsesKeepSessions(s: Store, t: Store)
    requires SessionsOk(s) && t.tokens == s.tokens && |t.sessions| == |s.sessions|
    requires forall q: nat, i: nat :: UsedBy(s, q, i) <==> UsedBy(t, q, i)
    ensures SessionsOk(t)
  {
    forall i: nat | i < |t.sessions|
      ensures FromACode(t, i) && HasLiveToken(t, i)
    {
      assert FromACode(s, i) && HasLiveToken(s, i);
      var q: nat :| UsedBy(s, q, i);
      assert UsedBy(t, q, i);
      var k: nat :| LiveToken(s, i, k);
      assert LiveToken(t, i, k);
    }
  }

  lemma GrantKeepsSessions(s: Store, t: Store, q: nat)
    requires SessionsOk(s) && q < |s.requests| && s.requests[q].decision.Approved? && s.requests[q].decision.used.None?
    requires |t.requests| == |s.requests| && t.requests == s.requests[q := t.requests[q]] && UsedBy(t, q, |s.sessions|)
    requires |t.sessions| == |s.sessions| + 1
    requires |t.tokens| == |s.tokens| + 1 && t.tokens[..|s.tokens|] == s.tokens
    requires t.tokens[|s.tokens|].session == |s.sessions| && !t.tokens[|s.tokens|].used
    ensures SessionsOk(t)
  {
    forall k | 0 <= k < |s.tokens|
      ensures t.tokens[k] == s.tokens[k]
    {
      assert t.tokens[..|s.tokens|][k] == s.tokens[k];
    }
    forall r: nat, i: nat | UsedBy(t, r, i)
      ensures (r == q && i == |s.sessions|) || UsedBy(s, r, i)
    {
    }
    forall i: nat | i < |t.sessions|
      ensures FromACode(t, i) && HasLiveToken(t, i)
    {
      if i < |s.sessions| {
        assert FromACode(s, i) && HasLiveToken(s, i);
        var r: nat :| UsedBy(s, r, i);
        assert UsedBy(t, r, i);
        var k: nat :| LiveToken(s, i, k);
        assert LiveToken(t, i, k);
      } else {
        assert LiveToken(t, i, |s.tokens|);
      }
    }
  }

  lemma RotateKeepsSessions(s: Store, t: Store, k: nat)
    requires SessionsOk(s) && k < |s.tokens| && !s.tokens[k].used
    requires t.requests == s.requests && t.sessions == s.sessions
    requires |t.tokens| == |s.tokens| + 1 && t.tokens[..|s.tokens|] == s.tokens[k := s.tokens[k].(used := true)]
    requires t.tokens[|s.tokens|].session == s.tokens[k].session && !t.tokens[|s.tokens|].used
    ensures SessionsOk(t)
  {
    forall j | 0 <= j < |s.tokens|
      ensures t.tokens[j] == if j == k then s.tokens[j].(used := true) else s.tokens[j]
    {
      assert t.tokens[..|s.tokens|][j] == t.tokens[j];
    }
    forall q: nat, i: nat | UsedBy(t, q, i)
      ensures UsedBy(s, q, i)
    {
    }
    forall i: nat | i < |t.sessions|
      ensures FromACode(t, i) && HasLiveToken(t, i)
    {
      assert FromACode(s, i) && HasLiveToken(s, i);
      var q: nat :| UsedBy(s, q, i);
      assert UsedBy(t, q, i);
      var j: nat :| LiveToken(s, i, j);
      if i == s.tokens[k].session {
        assert j == k;
        assert LiveToken(t, i, |s.tokens|);
      } else {
        assert LiveToken(t, i, j);
      }
    }
  }

  // --- What one operation's answer means for the store ---

  predicate UsedCode(s: Store, op: Op, session: nat) {
    op.Exchange? && op.code.CodeSecret?
    && exists q :: 0 <= q < |s.requests| && HasCode(s.requests[q], Sha256(op.code)) && s.requests[q].decision.used == Some(session)
  }

  predicate UsedToken(s: Store, op: Op, session: nat) {
    op.Refresh? && op.token.RefreshSecret? && session < |s.sessions| && s.sessions[session].revoked.None?
    && exists k :: 0 <= k < |s.tokens| && s.tokens[k].hash == Sha256(op.token) && s.tokens[k].session == session && s.tokens[k].used
  }

  predicate Revoked(s: Store, session: nat) { session < |s.sessions| && s.sessions[session].revoked.Some? }

  lemma {:induction false} TokenFound(s: Store, drawn: set<Secret>, k: nat)
    requires SecretsOk(s, drawn) && k < |s.tokens|
    ensures TokenByHash(s.tokens, s.tokens[k].hash) == Some(k)
  {
    var found := TokenByHash(s.tokens, s.tokens[k].hash);
    assert found.Some?;
  }

  lemma {:induction false} CodeFound(s: Store, drawn: set<Secret>, q: nat, code: Hashed)
    requires SecretsOk(s, drawn) && q < |s.requests| && HasCode(s.requests[q], code)
    ensures RequestByCode(s.requests, code) == Some(q)
  {
    var found := RequestByCode(s.requests, code);
    assert found.Some?;
  }

  /** What a detected reuse leaves: the connection revoked, if it was not, because of it. */
  function ReuseRevoked(s: Store, op: Op, session: nat): Store
    requires session < |s.sessions|
  {
    var c := s.sessions[session];
    var reason := if op.Exchange? then CodeReuse else RefreshReuse;
    s.(sessions := s.sessions[session := c.(revoked := if c.revoked.Some? then c.revoked else Some(reason))])
  }

  /** Presenting a used code, or a used refresh token of a live connection, is the one
      refusal that writes: it ends with that connection revoked and nothing else changed.
      Every other refusal leaves the store as it was. */
  lemma OnlyReuseWritesOnRefusal(s: Store, drawn: set<Secret>, op: Op, now: int)
    requires SessionsOk(s) && SecretsOk(s, drawn)
    ensures var (t, answer) := Apply(s, op, now);
            && (answer.ReuseDetected? <==> exists session: nat :: UsedCode(s, op, session) || UsedToken(s, op, session))
            && (forall session: nat :: UsedCode(s, op, session) || UsedToken(s, op, session) ==>
                  session < |s.sessions| && t == ReuseRevoked(s, op, session))
            && (answer.InvalidGrant? || answer.InvalidTarget? || answer.NotFound? || answer == Revocation(false) ==> t == s)
  {
    var (t, answer) := Apply(s, op, now);
    forall session: nat | UsedCode(s, op, session) || UsedToken(s, op, session)
      ensures answer.ReuseDetected? && session < |s.sessions| && t == ReuseRevoked(s, op, session)
    {
      ReuseRevokes(s, drawn, op, now, session);
    }
    if answer.ReuseDetected? {
      ReuseIsReal(s, op, now);
    }
  }

  lemma ReuseRevokes(s: Store, drawn: set<Secret>, op: Op, now: int, session: nat)
    requires SessionsOk(s) && SecretsOk(s, drawn) && (UsedCode(s, op, session) || UsedToken(s, op, session))
    ensures session < |s.sessions|
    ensures var (t, answer) := Apply(s, op, now);
            answer.ReuseDetected? && Revoked(t, session) && t == ReuseRevoked(s, op, session)
  {
    if UsedCode(s, op, session) {
      var q: nat :| q < |s.requests| && HasCode(s.requests[q], Sha256(op.code)) && s.requests[q].decision.used == Some(session);
      CodeFound(s, drawn, q, Sha256(op.code));
      assert UsedBy(s, q, session);
      assert PlanOf(s, op, now) == RevokeSession(session, CodeReuse, true);
    } else {
      var k: nat :| k < |s.tokens| && s.tokens[k].hash == Sha256(op.token) && s.tokens[k].session == session && s.tokens[k].used;
      TokenFound(s, drawn, k);
      assert PlanOf(s, op, now) == RevokeSession(session, RefreshReuse, true);
    }
  }

  lemma ReuseIsReal(s: Store, op: Op, now: int)
    requires Apply(s, op, now).1.ReuseDetected?
    ensures exists session: nat :: UsedCode(s, op, session) || UsedToken(s, op, session)
  {
    var plan := PlanOf(s, op, now);
    assert plan.RevokeSession? && plan.detected;
    if op.Exchange? {
      var q := RequestByCode(s.requests, Sha256(op.code)).value;
      assert UsedCode(s, op, s.requests[q].decision.used.value);
    } else {
      var k := TokenByHash(s.tokens, Sha256(op.token)).value;
      assert UsedToken(s, op, s.tokens[k].session);
    }
  }

  /** A refresh token that is not the connection's newest has been used, so presenting it
      while the connection lives revokes the connection. */
  lemma OlderTokenRevokes(s: Store, drawn: set<Secret>, op: Op, now: int, j: nat, k: nat)
    requires SessionsOk(s) && SecretsOk(s, drawn) && op.Refresh? && op.token.RefreshSecret?
    requires j < k < |s.tokens| && s.tokens[j].session == s.tokens[k].session && s.tokens[j].hash == Sha256(op.token)
    requires s.sessions[s.tokens[j].session].revoked.None?
    ensures Apply(s, op, now).1.ReuseDetected? && Revoked(Apply(s, op, now).0, s.tokens[j].session)
  {
    var session := s.tokens[j].session;
    assert HasLiveToken(s, session);
    var live: nat :| LiveToken(s, session, live);
    assert k <= live && s.tokens[j].used;
    ReuseRevokes(s, drawn, op, now, session);
  }

  // --- From approval to a refreshed connection ---

  predicate DecidesRequest(s: Store, op: Op, now: int) {
    op.Decide? && op.request < |s.requests| && s.requests[op.request].decision.Undecided? && now < s.requests[op.request].expiresAt
  }

  /** A request is decided if and only if it is pending and unexpired, as the user said; one
      decided before or expired is answered not found. Nothing else changes. */
  lemma PendingIsDecidedIff(s: Store, op: Op, now: int)
    requires op.Decide?
    ensures var (t, answer) := Apply(s, op, now);
            if DecidesRequest(s, op, now) then
              && answer == Decided(op.approve)
              && t == s.(requests := s.requests[op.request := t.requests[op.request]]) && |t.requests| == |s.requests|
              && t.requests[op.request] == s.requests[op.request].(decision := t.requests[op.request].decision)
              && (if op.approve then HasCode(t.requests[op.request], Sha256(op.newSecret))
                  else t.requests[op.request].decision == Denied(op.user))
            else answer == NotFound && t == s
  {
  }

  /** What RFC 6749 section 4.1.3 and RFC 7636 section 4.6 ask of a client exchanging a code. */
  predicate PresentsGrant(r: Request, op: Op)
    requires op.Exchange?
  {
    && r.client == op.client && (op.redirectUri == "" || op.redirectUri == r.redirectUri)
    && op.verifier.wellFormed && S256(op.verifier.text) == r.challenge
  }

  predicate Presents(r: Request, op: Op)
    requires op.Exchange?
  {
    PresentsGrant(r, op) && ResourceMatches(op.resource, r.resource)
  }

  /** No other request was approved with that code. */
  predicate OnlyCodeOf(t: Store, q: nat, code: Hashed) {
    forall r :: 0 <= r < |t.requests| && r != q ==> !HasCode(t.requests[r], code)
  }

  /** From any store later than a decision, the code drawn for it is exchanged if and only if
      the user approved, its two minutes are not over, it was not exchanged before, and
      client, redirect, verifier and resource are the request's; the connection is then the
      deciding user's. */
  lemma DecidedCodeIsExchangedIff(s: Store, decide: Op, now: int, t: Store, exchange: Op, later: int)
    requires DecidesRequest(s, decide, now) && Grows(Apply(s, decide, now).0, t)
    requires exchange.Exchange? && exchange.code.CodeSecret? && exchange.code == decide.newSecret
    requires OnlyCodeOf(t, decide.request, Sha256(exchange.code))
    ensures var r := t.requests[decide.request];
            var (u, answer) := Apply(t, exchange, later);
            && (answer.Tokens? <==> decide.approve && later < now + CODE_LIFETIME && r.decision.used.None?
                                    && Presents(s.requests[decide.request], exchange))
            && (answer.Tokens? ==>
                  && u.sessions == t.sessions + [Session(decide.user, exchange.client, r.resource, None)]
                  && answer.session == |t.sessions|)
            && (!decide.approve ==> answer == InvalidGrant && u == t)
  {
    var was := Apply(s, decide, now).0;
    assert RequestGrows(was.requests[decide.request], t.requests[decide.request]);
    var found := RequestByCode(t.requests, Sha256(exchange.code));
    assert found.Some? ==> found.value == decide.request;
  }

  /** The same from the application's request on: it is answered with a connection of the
      user who approved, if and only if that user approved within ten minutes and the code
      came back within two, from the client that asked and with what it asked for. */
  lemma RequestBecomesConnectionIff(s: Store, start: Op, asked: int, decide: Op, now: int, exchange: Op, later: int)
    requires start.Start? && decide.Decide? && decide.request == |s.requests|
    requires exchange.Exchange? && exchange.code == decide.newSecret && exchange.code.CodeSecret?
    requires OnlyCodeOf(s, |s.requests|, Sha256(exchange.code))
    ensures var started := Apply(s, start, asked).0;
            var decided := Apply(started, decide, now).0;
            var (t, answer) := Apply(decided, exchange, later);
            && Apply(s, start, asked).1 == Started(decide.request)
            && (answer.Tokens? <==>
                  && decide.approve && now < asked + REQUEST_LIFETIME && later < now + CODE_LIFETIME
                  && exchange.client == start.client && (exchange.redirectUri == "" || exchange.redirectUri == start.redirectUri)
                  && exchange.verifier.wellFormed && S256(exchange.verifier.text) == start.challenge
                  && ResourceMatches(exchange.resource, start.resource))
            && (answer.Tokens? ==> t.sessions == s.sessions + [Session(decide.user, start.client, start.resource, None)])
  {
    var started := Apply(s, start, asked).0;
    var decided := Apply(started, decide, now).0;
    if DecidesRequest(started, decide, now) {
      DecidedCodeIsExchangedIff(started, decide, now, decided, exchange, later);
    } else {
      var found := RequestByCode(decided.requests, Sha256(exchange.code));
      assert found.None?;
    }
  }

  predicate Exchangeable(r: Request, now: int)
    requires r.decision.Approved?
  {
    r.decision.used.None? && now < r.decision.codeExpiresAt
  }

  /** A code gets a connection for the user who approved it and the client it was issued
      to, if and only if all of it holds. */
  lemma CodeIsExchangedIff(s: Store, drawn: set<Secret>, op: Op, now: int, q: nat)
    requires SecretsOk(s, drawn) && op.Exchange? && op.code.CodeSecret?
    requires q < |s.requests| && HasCode(s.requests[q], Sha256(op.code))
    ensures var (t, answer) := Apply(s, op, now);
            && (answer.Tokens? <==> Exchangeable(s.requests[q], now) && Presents(s.requests[q], op))
            && (answer.InvalidTarget? <==>
                  Exchangeable(s.requests[q], now) && PresentsGrant(s.requests[q], op) && !ResourceMatches(op.resource, s.requests[q].resource))
            && (answer.Tokens? || answer.InvalidTarget? || answer.ReuseDetected? || answer.InvalidGrant?)
            && (answer.Tokens? ==>
                  && answer.session == |s.sessions| && answer.refresh == op.newSecret
                  && t.sessions == s.sessions + [Session(s.requests[q].decision.user, op.client, s.requests[q].resource, None)])
  {
    CodeFound(s, drawn, q, Sha256(op.code));
  }

  /** A refresh token is rotated if and only if it is unused, unexpired, its connection
      live, and the client and resource are the connection's. */
  lemma TokenIsRotatedIff(s: Store, drawn: set<Secret>, op: Op, now: int, k: nat)
    requires SecretsOk(s, drawn) && SessionsOk(s) && op.Refresh? && op.token.RefreshSecret?
    requires k < |s.tokens| && s.tokens[k].hash == Sha256(op.token)
    ensures var (t, answer) := Apply(s, op, now);
            var c := s.sessions[s.tokens[k].session];
            var good := !s.tokens[k].used && now < s.tokens[k].expiresAt && c.revoked.None? && c.client == op.client;
            && (answer.Tokens? <==> good && ResourceMatches(op.resource, c.resource))
            && (answer.InvalidTarget? <==> good && !ResourceMatches(op.resource, c.resource))
            && (answer.Tokens? || answer.InvalidTarget? || answer.ReuseDetected? || answer.InvalidGrant?)
            && (answer.Tokens? ==> answer.session == s.tokens[k].session && t.sessions == s.sessions)
  {
    TokenFound(s, drawn, k);
  }

  /** Tokens handed out work: the access token is accepted until it expires, give or take
      the clock skew, and for the connection's own user only. */
  lemma GrantedAccessIsAccepted(s: Store, op: Op, now: int, later: int, user: string)
    requires SessionsOk(s) && Apply(s, op, now).1.Tokens?
    ensures var (t, answer) := Apply(s, op, now);
            && answer.session < |t.sessions| && answer.access.user == t.sessions[answer.session].user
            && (AccessAccepted(t, answer.access.(user := user), later)
                <==> user == answer.access.user && now - CLOCK_SKEW <= later < now + ACCESS_LIFETIME + CLOCK_SKEW)
  {
    if op.Refresh? {
      var k := TokenByHash(s.tokens, Sha256(op.token)).value;
      assert s.tokens[k].session < |s.sessions|;
    }
  }

  predicate EndsWith(t: Store, token: Token) { t.tokens != [] && t.tokens[|t.tokens| - 1] == token }

  // --- Revoking ---

  /** op is by session's own client with one of its tokens, or by its user. */
  predicate MayRevoke(s: Store, op: Op, now: int, session: nat) {
    && session < |s.sessions|
    && match op
       case RevokeRefresh(token, client) =>
         && s.sessions[session].client == client && token.RefreshSecret?
         && exists k :: 0 <= k < |s.tokens| && s.tokens[k].hash == Sha256(token) && s.tokens[k].session == session
       case RevokeAccess(access, client) => access.client == client && access.connection == session && Verifies(access, now)
       case RevokeConnection(user, id) => id == session && s.sessions[session].user == user
       case _ => false
  }

  predicate IsRevoking(op: Op) { op.RevokeRefresh? || op.RevokeAccess? || op.RevokeConnection? }

  lemma RevokesOnly(s: Store, drawn: set<Secret>, op: Op, now: int, session: nat)
    requires SecretsOk(s, drawn) && IsRevoking(op) && MayRevoke(s, op, now, session) && s.sessions[session].revoked.None?
    ensures PlanOf(s, op, now) == RevokeSession(session, if op.RevokeConnection? then ByUser else ByClient, false)
  {
    if op.RevokeRefresh? {
      var k :| 0 <= k < |s.tokens| && s.tokens[k].hash == Sha256(op.token) && s.tokens[k].session == session;
      TokenFound(s, drawn, k);
    }
  }

  lemma OnlyWhoMayRevokes(s: Store, op: Op, now: int)
    requires IsRevoking(op) && Apply(s, op, now).1 != Revocation(false)
    ensures exists session: nat :: MayRevoke(s, op, now, session) && s.sessions[session].revoked.None?
  {
    var plan := PlanOf(s, op, now);
    if op.RevokeRefresh? {
      var k := TokenByHash(s.tokens, Sha256(op.token)).value;
      assert MayRevoke(s, op, now, s.tokens[k].session);
    } else {
      assert MayRevoke(s, op, now, plan.session);
    }
  }

  /** Revoking ends a live connection if and only if it is its own client with one of its
      tokens, or its user, who asks: that one, for that reason, and nothing else. */
  lemma RevokesIff(s: Store, drawn: set<Secret>, op: Op, now: int)
    requires SecretsOk(s, drawn) && IsRevoking(op)
    ensures var (t, answer) := Apply(s, op, now);
            && (answer == Revocation(true) <==> exists session: nat :: MayRevoke(s, op, now, session) && s.sessions[session].revoked.None?)
            && (answer == Revocation(true) || (answer == Revocation(false) && t == s))
            && forall session: nat :: MayRevoke(s, op, now, session) && s.sessions[session].revoked.None? ==>
                 t == s.(sessions := s.sessions[session := s.sessions[session].(
                           revoked := Some(if op.RevokeConnection? then ByUser else ByClient))])
  {
    var (t, answer) := Apply(s, op, now);
    forall session: nat | MayRevoke(s, op, now, session) && s.sessions[session].revoked.None?
      ensures answer == Revocation(true)
      ensures t == s.(sessions := s.sessions[session := s.sessions[session].(
                        revoked := Some(if op.RevokeConnection? then ByUser else ByClient))])
    {
      RevokesOnly(s, drawn, op, now, session);
    }
    if answer != Revocation(false) {
      OnlyWhoMayRevokes(s, op, now);
    }
  }

  /** The tokens handed out revoke their connection, presented by its own client while the
      access token lives, and by no other client. */
  lemma GrantedTokensRevokeIff(s: Store, drawn: set<Secret>, op: Op, now: int, client: string, later: int)
    requires SessionsOk(s) && SecretsOk(s, drawn) && Draws(op) !! drawn && Apply(s, op, now).1.Tokens? && op.newSecret.RefreshSecret?
    requires now - CLOCK_SKEW <= later < now + ACCESS_LIFETIME + CLOCK_SKEW
    ensures var (t, answer) := Apply(s, op, now);
            && answer.session < |t.sessions|
            && (Apply(t, RevokeAccess(answer.access, client), later).1 == Revocation(true) <==> client == t.sessions[answer.session].client)
            && (Apply(t, RevokeRefresh(answer.refresh, client), later).1 == Revocation(true) <==> client == t.sessions[answer.session].client)
  {
    var (t, answer) := Apply(s, op, now);
    GrantedIsLive(s, op, now);
    PerformKeepsSecrets(s, PlanOf(s, op, now), drawn + Draws(op));
    GrantAddsToken(s, op, now);
    AccessRevokes(t, answer.access, client, later);
    NewestRevokes(t, drawn + Draws(op), answer.refresh, client, later);
  }

  lemma AccessRevokes(t: Store, access: Access, client: string, now: int)
    requires access.connection < |t.sessions| && t.sessions[access.connection].revoked.None? && Verifies(access, now)
    ensures Apply(t, RevokeAccess(access, client), now).1 == Revocation(true) <==> client == access.client
  {
  }

  lemma NewestRevokes(t: Store, drawn: set<Secret>, refresh: Secret, client: string, now: int)
    requires SecretsOk(t, drawn) && t.tokens != [] && t.tokens[|t.tokens| - 1].hash == Sha256(refresh) && refresh.RefreshSecret?
    requires var session := t.tokens[|t.tokens| - 1].session; session < |t.sessions| && t.sessions[session].revoked.None?
    ensures Apply(t, RevokeRefresh(refresh, client), now).1 == Revocation(true)
       <==> client == t.sessions[t.tokens[|t.tokens| - 1].session].client
  {
    TokenFound(t, drawn, |t.tokens| - 1);
  }

  lemma GrantedIsLive(s: Store, op: Op, now: int)
    requires SessionsOk(s) && Apply(s, op, now).1.Tokens?
    ensures var (t, answer) := Apply(s, op, now);
            && answer.session < |t.sessions| && t.sessions[answer.session].revoked.None?
            && answer.access == Access(t.sessions[answer.session].user, answer.session, t.sessions[answer.session].client, now, now + ACCESS_LIFETIME)
  {
    if op.Refresh? {
      var k := TokenByHash(s.tokens, Sha256(op.token)).value;
      assert s.tokens[k].session < |s.sessions|;
    }
  }

  lemma GrantAddsToken(s: Store, op: Op, now: int)
    requires Apply(s, op, now).1.Tokens?
    ensures var (t, answer) := Apply(s, op, now);
            EndsWith(t, Token(Sha256(answer.refresh), answer.session, now + REFRESH_LIFETIME, false))
            && answer.session < |t.sessions|
  {
  }

  /** The refresh token handed out is its connection's one unused token, good until its own expiry. */
  lemma GrantedTokenIsNewest(s: Store, drawn: set<Secret>, op: Op, now: int)
    requires SessionsOk(s) && SecretsOk(s, drawn) && Draws(op) !! drawn && Apply(s, op, now).1.Tokens?
    ensures var (t, answer) := Apply(s, op, now);
            && EndsWith(t, Token(Sha256(answer.refresh), answer.session, now + REFRESH_LIFETIME, false))
            && LiveToken(t, answer.session, |t.tokens| - 1)
  {
    var (t, answer) := Apply(s, op, now);
    PerformKeepsSessions(s, PlanOf(s, op, now), drawn + Draws(op));
    GrantAddsToken(s, op, now);
    NewestIsLive(t, answer.session);
  }

  lemma NewestIsLive(t: Store, session: nat)
    requires SessionsOk(t) && session < |t.sessions| && t.tokens != []
    requires t.tokens[|t.tokens| - 1].session == session && !t.tokens[|t.tokens| - 1].used
    ensures LiveToken(t, session, |t.tokens| - 1)
  {
    assert HasLiveToken(t, session);
    var live: nat :| LiveToken(t, session, live);
    assert live == |t.tokens| - 1;
  }

  // --- The service's transactions, as written: read, refuse or write, commit ---

  class Service {
    var store: Store

    constructor (store: Store)
      ensures this.store == store
    {
      this.store := store;
    }

    method DecideAuthorization(user: string, request: nat, approve: bool, newSecret: Secret, now: int) returns (answer: Answer)
      modifies this
      ensures (store, answer) == Apply(old(store), Decide(user, request, approve, newSecret), now)
    {
      if request >= |store.requests| {
        return NotFound;
      }
      var found := store.requests[request];
      if !found.decision.Undecided? || now >= found.expiresAt {
        return NotFound;
      }
      var decision := Denied(user);
      if approve {
        decision := Approved(user, Sha256(newSecret), now + CODE_LIFETIME, None);
      }
      store := store.(requests := store.requests[request := found.(decision := decision)]);
      return Decided(approve);
    }

    method ExchangeCode(code: Secret, client: string, redirectUri: string, verifier: Verifier, resource: string, newSecret: Secret, now: int)
      returns (answer: Answer)
      modifies this
      ensures (store, answer) == Apply(old(store), Exchange(code, client, redirectUri, verifier, resource, newSecret), now)
    {
      if !code.CodeSecret? {
        return InvalidGrant;
      }
      var row := RequestByCode(store.requests, Sha256(code));
      if row.None? {
        return InvalidGrant;
      }
      var request := store.requests[row.value];
      if request.decision.used.Some? {
        var revoked := RevokeOne(request.decision.used.value, CodeReuse);
        return ReuseDetected;
      }
      if now >= request.decision.codeExpiresAt
         || request.client != client
         || (redirectUri != "" && redirectUri != request.redirectUri)
         || !VerifyPKCE(verifier, request.challenge) {
        return InvalidGrant;
      }
      if resource != "" && TrimRight(resource) != request.resource {
        return InvalidTarget;
      }
      var session, id := Session(request.decision.user, request.client, request.resource, None), |store.sessions|;
      var tx := store.(sessions := store.sessions + [session]);
      var used := request.decision.used.None?;
      if !used {
        return InvalidGrant;
      }
      tx := tx.(requests := tx.requests[row.value := request.(decision := request.decision.(used := Some(id)))]);
      tx := tx.(tokens := tx.tokens + [Token(Sha256(newSecret), id, now + REFRESH_LIFETIME, false)]);
      store := tx;
      return Tokens(id, newSecret, AccessFor(session, id, now));
    }

    method RefreshTokens(token: Secret, client: string, resource: string, newSecret: Secret, now: int) returns (answer: Answer)
      modifies this
      ensures (store, answer) == Apply(old(store), Refresh(token, client, resource, newSecret), now)
    {
      if !token.RefreshSecret? {
        return InvalidGrant;
      }
      var row := TokenByHash(store.tokens, Sha256(token));
      if row.None? || store.tokens[row.value].session >= |store.sessions| {
        return InvalidGrant;
      }
      var found := store.tokens[row.value];
      var session := store.sessions[found.session];
      if session.revoked.Some? {
        return InvalidGrant;
      }
      if found.used {
        var revoked := RevokeOne(found.session, RefreshReuse);
        return ReuseDetected;
      }
      if now >= found.expiresAt || session.client != client {
        return InvalidGrant;
      }
      if resource != "" && TrimRight(resource) != session.resource {
        return InvalidTarget;
      }
      var tx := store.(tokens := store.tokens[row.value := found.(used := true)]);
      tx := tx.(tokens := tx.tokens + [Token(Sha256(newSecret), found.session, now + REFRESH_LIFETIME, false)]);
      store := tx;
      return Tokens(found.session, newSecret, AccessFor(session, found.session, now));
    }

    /** A conditional write: false, changing nothing, when the session is missing or revoked. */
    method RevokeOne(session: nat, reason: Reason) returns (done: bool)
      modifies this
      ensures (store, Revocation(done)) == Perform(old(store), RevokeSession(session, reason, false))
    {
      done := session < |store.sessions| && store.sessions[session].revoked.None?;
      if done {
        store := store.(sessions := store.sessions[session := store.sessions[session].(revoked := Some(reason))]);
      }
    }

    method RevokeRefreshToken(token: Secret, client: string) returns (answer: Answer)
      modifies this
      ensures forall now :: (store, answer) == Apply(old(store), RevokeRefresh(token, client), now)
    {
      var row := TokenByHash(store.tokens, Sha256(token));
      if !token.RefreshSecret? || row.None? || store.tokens[row.value].session >= |store.sessions|
         || store.sessions[store.tokens[row.value].session].client != client {
        return Revocation(false);
      }
      var done := RevokeOne(store.tokens[row.value].session, ByClient);
      return Revocation(done);
    }

    method RevokeAccessToken(access: Access, client: string, now: int) returns (answer: Answer)
      modifies this
      ensures (store, answer) == Apply(old(store), RevokeAccess(access, client), now)
    {
      if !Verifies(access, now) || access.client != client || access.connection >= |store.sessions| {
        return Revocation(false);
      }
      var done := RevokeOne(access.connection, ByClient);
      return Revocation(done);
    }

    method RevokeOwnConnection(user: string, session: nat) returns (answer: Answer)
      modifies this
      ensures forall now :: (store, answer) == Apply(old(store), RevokeConnection(user, session), now)
    {
      if session >= |store.sessions| || store.sessions[session].user != user || store.sessions[session].revoked.Some? {
        return Revocation(false);
      }
      var done := RevokeOne(session, ByUser);
      return Revocation(done);
    }

    method VerifyAccessToken(access: Access, now: int) returns (accepted: bool)
      ensures accepted == AccessAccepted(store, access, now)
    {
      if !Verifies(access, now) || access.connection >= |store.sessions| {
        return false;
      }
      var session := store.sessions[access.connection];
      return session.revoked.None? && session.user == access.user;
    }
  }
}
