/** The calls of the orchestrator over the two stores, which share no transaction: every
    call is a sequence of store operations that other calls interleave with and that may
    stop for good after any of them (orchestrator/gameauthoring). */
module Publication {
  import opened Options
  import opened GameLifecycle
  import opened PlayVersions

  /** What a call does once no release is left being published. */
  datatype Goal = ToPublish(visibility: Visibility, key: Key) | ToOpen(key: Key) | ToEdit

  /** What follows ending a release: the call's goal when it only resumed it, an answer
      when BeginPublication named it, as this call's own release or as an earlier one. */
  datatype Then = GoOn(goal: Goal) | AnswerOwn | AnswerEarlier

  datatype Answer =
    | PublishedRelease(release: nat)
    | NotPublishedRelease(release: nat)
    | PublicationRefused(why: Publication)
    | VersionNotReady
    | OpeningAnswered(opening: Opening)
    | EditAnswered(edit: Edit)
    | EditableRefused(decision: Editable)
    | DraftEnsured(version: Uuid, revision: nat)
    | Failed
    | Alerted

  /** Where a call stands: the store operation it performs next. */
  datatype Pc =
    | Resuming(goal: Goal)
    | Freezing(release: nat, next: Then)
    | Completing(release: nat, next: Then)
    | Abandoning(release: nat, next: Then)
    | FindingByKey(visibility: Visibility, key: Key)
    | FindingEditable(goal: Goal)
    | Ensuring
    | Checking(version: Uuid, base: Option<Uuid>, visibility: Visibility, key: Key, repaired: bool)
    | Beginning(version: Uuid, revision: nat, visibility: Visibility, key: Key)
    | Opening(key: Key)
    | EditingDraft(version: Uuid, base: Option<Uuid>, repaired: bool)
    | CreatingDraft(version: Uuid, base: Option<Uuid>, back: Option<Pc>)
    | Done(answer: Answer)

  function Begin(goal: Goal): Pc {
    match goal
    case ToPublish(visibility, key) => FindingByKey(visibility, key)
    case ToOpen(key) => Opening(key)
    case ToEdit => FindingEditable(ToEdit)
  }

  function AfterCompleting(release: nat, next: Then): Pc {
    match next
    case GoOn(goal) => Begin(goal)
    case AnswerOwn => Done(PublishedRelease(release))
    case AnswerEarlier => Done(PublicationRefused(NotEditable))
  }

  function AfterAbandoning(release: nat, next: Then): Pc {
    match next
    case GoOn(goal) => Begin(goal)
    case AnswerOwn => Done(NotPublishedRelease(release))
    case AnswerEarlier => Done(PublicationRefused(NotEditable))
  }

  // --- One store operation of a call, by where it stands: the stores after it and where it goes ---

  function ActFreezing(g: Game, p: Play, release: nat, next: Then): (Play, Pc) {
    if release >= |g.releases| || g.releases[release].edition >= |g.editions| then (p, Done(Failed))
    else
      var r := g.releases[release];
      var (q, answer) := FreezeVersion(p, g.editions[r.edition].version, r.revision);
      (q, match answer
          case FreezeMissing => Done(Failed)
          case FreezeNotReady => Abandoning(release, next)
          case Frozen => Completing(release, next)
          case AlreadyFrozen => Completing(release, next))
  }

  function ActCompleting(g: Game, release: nat, next: Then): (Game, Pc) {
    var (h, answer) := CompletePublication(g, release);
    (h, match answer
        case ReleaseCompleted => AfterCompleting(release, next)
        case EditionNotOpen => Done(Alerted)
        case WasAbandoned => Done(Failed)
        case NoRelease => Done(Failed))
  }

  function ActChecking(p: Play, pc: Pc): Pc
    requires pc.Checking?
  {
    match CheckPublication(p, pc.version)
    case CheckMissing =>
      if pc.repaired then Done(Failed) else CreatingDraft(pc.version, pc.base, Some(Checking(pc.version, pc.base, pc.visibility, pc.key, true)))
    case CheckReady(revision) => Beginning(pc.version, revision, pc.visibility, pc.key)
    case CheckNotReady => Done(VersionNotReady)
    case CheckNotEditable => Done(PublicationRefused(NotEditable))
  }

  function ActBeginning(g: Game, user: string, pc: Pc): (Game, Pc)
    requires pc.Beginning?
  {
    var (h, answer) := BeginPublication(g, user, pc.revision, pc.visibility, pc.key);
    (h, match answer
        case Started(release) => Freezing(release, AnswerOwn)
        case PendingFirst(release) => Freezing(release, AnswerEarlier)
        case EndedCompleted(release) => Done(PublishedRelease(release))
        case EndedAbandoned(release) => Done(NotPublishedRelease(release))
        case refused => Done(PublicationRefused(refused)))
  }

  function ActOpening(g: Game, user: string, key: Key, newVersion: Uuid): (Game, Pc) {
    var (h, answer) := OpenEdition(g, user, key, newVersion);
    (h, match answer
        case Opened(version, base) => CreatingDraft(version, Some(base), None)
        case BrokenRequest => Done(Alerted)
        case refused => Done(OpeningAnswered(refused)))
  }

  function ActEditing(p: Play, pc: Pc, accepted: bool): (Play, Pc)
    requires pc.EditingDraft?
  {
    var (q, answer) := EditDraft(p, pc.version, accepted);
    (q, if !answer.EditMissing? then Done(EditAnswered(answer))
        else if pc.repaired then Done(Failed)
        else CreatingDraft(pc.version, pc.base, Some(EditingDraft(pc.version, pc.base, true))))
  }

  function ActCreating(p: Play, version: Uuid, base: Option<Uuid>, back: Option<Pc>): (Play, Pc) {
    var (q, answer) := CreateDraftVersion(p, version, base);
    (q, match answer
        case DraftCreated => if back.Some? then back.value else Done(DraftEnsured(version, 1))
        case DraftAlreadyCreated(revision) => if back.Some? then back.value else Done(DraftEnsured(version, revision))
        case DraftAnotherOpen => Done(Alerted)
        case DraftConflict => Done(Failed)
        case DraftNoBase => Done(Failed))
  }

  /** The operations that only read Game Management. */
  function ActReading(g: Game, user: string, pc: Pc): Pc {
    match pc
    case Resuming(goal) =>
      var pending := FindPendingPublication(g, user);
      if pending.Some? then Freezing(pending.value, GoOn(goal)) else Begin(goal)
    case FindingByKey(visibility, key) =>
      (match FindPublication(g, user, key)
       case Some(EndedCompleted(release)) => Done(PublishedRelease(release))
       case Some(EndedAbandoned(release)) => Done(NotPublishedRelease(release))
       case _ => FindingEditable(ToPublish(visibility, key)))
    case FindingEditable(goal) =>
      (match FindEditableVersion(g, user)
       case EditableFound(version, base) =>
         if goal.ToPublish? then Checking(version, base, goal.visibility, goal.key, false)
         else EditingDraft(version, base, false)
       case refused => Done(EditableRefused(refused)))
    case Ensuring =>
      (match FindEditableVersion(g, user)
       case EditableFound(version, base) => CreatingDraft(version, base, None)
       case refused => Done(EditableRefused(refused)))
    case _ => pc
  }

  function Act(g: Game, p: Play, user: string, pc: Pc, newVersion: Uuid, accepted: bool): (Game, Play, Pc) {
    match pc
    case Freezing(release, next) => var (q, to) := ActFreezing(g, p, release, next); (g, q, to)
    case Completing(release, next) => var (h, to) := ActCompleting(g, release, next); (h, p, to)
    case Abandoning(release, next) => (AbandonPublication(g, release), p, AfterAbandoning(release, next))
    case Checking(_, _, _, _, _) => (g, p, ActChecking(p, pc))
    case Beginning(_, _, _, _) => var (h, to) := ActBeginning(g, user, pc); (h, p, to)
    case Opening(key) => var (h, to) := ActOpening(g, user, key, newVersion); (h, p, to)
    case EditingDraft(_, _, _) => var (q, to) := ActEditing(p, pc, accepted); (g, q, to)
    case CreatingDraft(version, base, back) => var (q, to) := ActCreating(p, version, base, back); (g, q, to)
    case _ => (g, p, ActReading(g, user, pc))
  }

  // --- What the two stores keep between them ---

  predicate EditionsOk(g: Game) {
    && g.editions != []
    && (forall i, j :: 0 <= i < j < |g.editions| ==> g.editions[i].version != g.editions[j].version)
    && (forall i :: 0 <= i < |g.editions| - 1 ==> g.editions[i].status == Published)
  }

  /** Only the newest release may be pending, and then the newest edition is its own and open. */
  predicate ReleasesOk(g: Game) {
    && (forall i :: 0 <= i < |g.releases| ==> g.releases[i].edition < |g.editions|)
    && (forall i, j :: 0 <= i < j < |g.releases| ==> g.releases[i].key != g.releases[j].key)
    && (forall i :: 0 <= i < |g.releases| && g.releases[i].end == Pending ==>
          i == |g.releases| - 1 && g.releases[i].edition == |g.editions| - 1
          && g.editions[g.releases[i].edition].status == Editing)
    && (forall k :: k in g.requests ==> 0 < g.requests[k] < |g.editions|)
  }

  function VersionOf(g: Game, release: nat): Uuid
    requires release < |g.releases| && g.releases[release].edition < |g.editions|
  {
    g.editions[g.releases[release].edition].version
  }

  /** Play has reached revision of version, and it can still be, or was, frozen there. */
  predicate ReadyAt(p: Play, version: Uuid, revision: nat) {
    && version in p.versions
    && match p.versions[version]
       case Draft(current, ready) => revision <= current && revision in ready
       case Executable(frozen) => frozen == revision
  }

  /** Play has moved past revision, so it never freezes version there. */
  predicate Past(p: Play, version: Uuid, revision: nat) {
    version in p.versions && p.versions[version].revision > revision
  }

  predicate FrozenAt(p: Play, version: Uuid, revision: nat) {
    version in p.versions && p.versions[version] == Executable(revision)
  }

  predicate IsFrozen(p: Play, version: Uuid) { version in p.versions && p.versions[version].Executable? }

  /** What a release being published needs: Play can still freeze version at revision, or
      froze it there, or has moved past it and will refuse. */
  predicate Publishable(p: Play, version: Uuid, revision: nat) {
    ReadyAt(p, version, revision) || (Past(p, version, revision) && !IsFrozen(p, version))
  }

  predicate ReleaseMatchesPlay(g: Game, p: Play, release: nat)
    requires release < |g.releases| && g.releases[release].edition < |g.editions|
  {
    var r := g.releases[release];
    match r.end
    case Pending => Publishable(p, VersionOf(g, release), r.revision)
    case Completed => FrozenAt(p, VersionOf(g, release), r.revision) && g.editions[r.edition].status == Published
    case Abandoned => Past(p, VersionOf(g, release), r.revision)
  }

  predicate Known(g: Game, version: Uuid) {
    exists i :: 0 <= i < |g.editions| && g.editions[i].version == version
  }

  predicate HasPending(g: Game) { exists i :: 0 <= i < |g.releases| && g.releases[i].end == Pending }

  predicate StoresAgree(g: Game, p: Play)
    requires EditionsOk(g) && ReleasesOk(g)
  {
    && (forall i :: 0 <= i < |g.releases| ==> ReleaseMatchesPlay(g, p, i))
    && (forall i :: 0 <= i < |g.editions| && g.editions[i].status == Published ==> IsFrozen(p, g.editions[i].version))
    && (forall v :: v in p.versions ==> Known(g, v))
    && (forall i :: 0 <= i < |g.editions| && g.editions[i].status == Editing && IsFrozen(p, g.editions[i].version) ==> HasPending(g))
    && (g.published <==> g.editions[0].status == Published)
  }

  predicate Sound(g: Game, p: Play) { EditionsOk(g) && ReleasesOk(g) && StoresAgree(g, p) }

  predicate BaseOk(p: Play, base: Option<Uuid>) { CanStartFrom(p, base) }

  /** What a call may rely on about what it read earlier. */
  predicate PcOk(g: Game, p: Play, pc: Pc) {
    match pc
    case Freezing(release, _) => release < |g.releases|
    case Completing(release, _) =>
      release < |g.releases| && g.releases[release].edition < |g.editions|
      && IsFrozen(p, VersionOf(g, release))
    case Abandoning(release, _) =>
      release < |g.releases| && g.releases[release].edition < |g.editions|
      && (Past(p, VersionOf(g, release), g.releases[release].revision) || g.releases[release].end != Pending)
    case Checking(version, base, _, _, _) => Known(g, version) && BaseOk(p, base)
    case Beginning(version, revision, _, _) =>
      version in p.versions && (p.versions[version].Draft? ==> ReadyAt(p, version, revision))
    case EditingDraft(version, base, _) => Known(g, version) && BaseOk(p, base)
    case CreatingDraft(version, base, back) =>
      Known(g, version) && BaseOk(p, base)
      && (back.Some? ==> (back.value.Checking? || back.value.EditingDraft?) && PcOk(g, p, back.value))
    case Done(answer) => !answer.Alerted?
    case _ => true
  }

  // --- How the stores change over time ---

  predicate VersionGrows(a: Version, b: Version) {
    match a
    case Executable(_) => b == a
    case Draft(revision, ready) => revision <= b.revision && (b.Draft? ==> ready <= b.ready)
  }

  predicate EditionGrows(a: Edition, b: Edition) {
    b.version == a.version && (a.status == Published ==> b.status == Published)
  }

  /** An ended release never changes again. */
  predicate ReleaseGrows(a: Release, b: Release) {
    b.(end := a.end) == a && (a.end != Pending ==> b == a)
  }

  predicate Grows(g: Game, p: Play, h: Game, q: Play) {
    && |g.editions| <= |h.editions| && |g.releases| <= |h.releases| && h.owner == g.owner
    && (forall i :: 0 <= i < |g.editions| ==> EditionGrows(g.editions[i], h.editions[i]))
    && (forall i :: 0 <= i < |g.releases| ==> ReleaseGrows(g.releases[i], h.releases[i]))
    && (forall v :: v in p.versions ==> v in q.versions && VersionGrows(p.versions[v], q.versions[v]))
  }

  lemma GrowsIsTransitive(g0: Game, p0: Play, g1: Game, p1: Play, g2: Game, p2: Play)
    requires Grows(g0, p0, g1, p1) && Grows(g1, p1, g2, p2)
    ensures Grows(g0, p0, g2, p2)
  {
  }

  /** What a call read stays good whatever others do meanwhile. */
  lemma {:induction false} PcStaysOk(g: Game, p: Play, h: Game, q: Play, pc: Pc)
    requires Sound(g, p) && Sound(h, q) && Grows(g, p, h, q) && PcOk(g, p, pc)
    ensures PcOk(h, q, pc)
  {
    if pc.CreatingDraft? && pc.back.Some? {
      PcStaysOk(g, p, h, q, pc.back.value);
    }
    if pc.Checking? || pc.EditingDraft? || pc.CreatingDraft? {
      StaysKnown(g, p, h, q, pc.version, pc.base);
    } else if pc.Completing? || pc.Abandoning? {
      ReleaseStays(g, p, h, q, pc.release);
    }
  }

  lemma StaysKnown(g: Game, p: Play, h: Game, q: Play, version: Uuid, base: Option<Uuid>)
    requires Grows(g, p, h, q) && Known(g, version) && BaseOk(p, base)
    ensures Known(h, version) && BaseOk(q, base)
  {
    var i :| 0 <= i < |g.editions| && g.editions[i].version == version;
    assert EditionGrows(g.editions[i], h.editions[i]);
  }

  lemma ReleaseStays(g: Game, p: Play, h: Game, q: Play, release: nat)
    requires Grows(g, p, h, q) && release < |g.releases| && g.releases[release].edition < |g.editions|
    ensures ReleaseGrows(g.releases[release], h.releases[release]) && h.releases[release].edition < |h.editions|
    ensures VersionOf(h, release) == VersionOf(g, release)
  {
    assert EditionGrows(g.editions[g.releases[release].edition], h.editions[g.releases[release].edition]);
  }

  // --- Each store operation keeps the stores in agreement ---

  lemma KnownStays(g: Game, h: Game)
    requires |g.editions| <= |h.editions|
    requires forall i :: 0 <= i < |g.editions| ==> h.editions[i].version == g.editions[i].version
    ensures forall v :: Known(g, v) ==> Known(h, v)
  {
    forall v | Known(g, v)
      ensures Known(h, v)
    {
      var i :| 0 <= i < |g.editions| && g.editions[i].version == v;
      assert h.editions[i].version == v;
    }
  }

  lemma FreezeKeeps(g: Game, p: Play, release: nat)
    requires Sound(g, p) && release < |g.releases|
    ensures var (q, answer) := FreezeVersion(p, VersionOf(g, release), g.releases[release].revision);
            && Sound(g, q) && Grows(g, p, g, q) && !answer.FreezeMissing?
            && (answer.Frozen? || answer.AlreadyFrozen? ==> IsFrozen(q, VersionOf(g, release)))
            && (answer.FreezeNotReady? ==> Past(q, VersionOf(g, release), g.releases[release].revision))
  {
    assert ReleaseMatchesPlay(g, p, release);
    var (q, answer) := FreezeVersion(p, VersionOf(g, release), g.releases[release].revision);
    if answer.Frozen? {
      assert HasPending(g);
      forall i | 0 <= i < |g.releases|
        ensures ReleaseMatchesPlay(g, q, i)
      {
        assert ReleaseMatchesPlay(g, p, i);
      }
    }
  }

  /** Ends release as end and leaves every other as it was. */
  predicate Ends(g: Game, h: Game, release: nat, end: ReleaseEnd) {
    && release < |g.releases| && end != Pending && g.releases[release].end == Pending
    && h.releases == g.releases[release := g.releases[release].(end := end)]
    && h.requests == g.requests && h.owner == g.owner
  }

  lemma EndedReleasesOk(g: Game, h: Game, release: nat, end: ReleaseEnd)
    requires EditionsOk(g) && ReleasesOk(g) && Ends(g, h, release, end) && |h.editions| == |g.editions|
    ensures ReleasesOk(h) && !HasPending(h)
  {
    forall i | 0 <= i < |h.releases|
      ensures h.releases[i].edition < |h.editions| && h.releases[i].end != Pending && h.releases[i].key == g.releases[i].key
    {
      assert i != release ==> h.releases[i] == g.releases[i];
    }
  }

  lemma CompleteAgrees(g: Game, p: Play, release: nat)
    requires Sound(g, p) && release < |g.releases| && IsFrozen(p, VersionOf(g, release)) && g.releases[release].end == Pending
    ensures var h := CompletePublication(g, release).0;
            && Ends(g, h, release, Completed) && EditionsOk(h) && ReleasesOk(h) && StoresAgree(h, p)
  {
    var h := CompletePublication(g, release).0;
    assert ReleaseMatchesPlay(g, p, release);
    assert g.releases[release].edition == |g.editions| - 1;
    EndedReleasesOk(g, h, release, Completed);
    forall i | 0 <= i < |h.releases|
      ensures ReleaseMatchesPlay(h, p, i)
    {
      assert ReleaseMatchesPlay(g, p, i);
    }
    KnownStays(g, h);
  }

  lemma CompleteKeeps(g: Game, p: Play, release: nat)
    requires Sound(g, p) && release < |g.releases| && IsFrozen(p, VersionOf(g, release))
    ensures var (h, answer) := CompletePublication(g, release);
            Sound(h, p) && Grows(g, p, h, p) && !answer.EditionNotOpen? && !answer.NoRelease?
  {
    if g.releases[release].end == Pending {
      CompleteAgrees(g, p, release);
    }
  }

  lemma AbandonAgrees(g: Game, p: Play, release: nat)
    requires Sound(g, p) && release < |g.releases| && g.releases[release].end == Pending
    requires Past(p, VersionOf(g, release), g.releases[release].revision)
    ensures var h := AbandonPublication(g, release);
            && Ends(g, h, release, Abandoned) && EditionsOk(h) && ReleasesOk(h) && StoresAgree(h, p)
  {
    var h := AbandonPublication(g, release);
    assert ReleaseMatchesPlay(g, p, release);
    assert !IsFrozen(p, VersionOf(g, release));
    EndedReleasesOk(g, h, release, Abandoned);
    forall i | 0 <= i < |h.releases|
      ensures ReleaseMatchesPlay(h, p, i)
    {
      assert ReleaseMatchesPlay(g, p, i);
    }
    KnownStays(g, h);
  }

  lemma AbandonKeeps(g: Game, p: Play, release: nat)
    requires Sound(g, p) && release < |g.releases|
    requires Past(p, VersionOf(g, release), g.releases[release].revision) || g.releases[release].end != Pending
    ensures var h := AbandonPublication(g, release); Sound(h, p) && Grows(g, p, h, p)
  {
    if g.releases[release].end == Pending {
      AbandonAgrees(g, p, release);
    }
  }

  /** A release of the open edition recorded last. */
  predicate RecordsLast(g: Game, h: Game, made: Release) {
    && PendingRelease(g.releases).None? && LatestEdition(g.editions, Editing) == Some(made.edition)
    && made.end == Pending && ReleaseByKey(g.releases, made.key).None?
    && h == g.(releases := g.releases + [made])
  }

  lemma BeginRecords(g: Game, user: string, revision: nat, visibility: Visibility, key: Key)
    ensures var (h, answer) := BeginPublication(g, user, revision, visibility, key);
            h == g || (answer == Started(|g.releases|) && LatestEdition(g.editions, Editing).Some?
                       && RecordsLast(g, h, Release(LatestEdition(g.editions, Editing).value, revision, visibility, key, Pending)))
  {
  }

  lemma RecordedOk(g: Game, p: Play, h: Game, made: Release)
    requires Sound(g, p) && RecordsLast(g, h, made)
    ensures EditionsOk(h) && ReleasesOk(h) && Grows(g, p, h, p) && h.releases[|g.releases|] == made && HasPending(h)
  {
    assert h.releases[|g.releases|] == made;
  }

  lemma RecordedAgreesIff(g: Game, p: Play, h: Game, made: Release)
    requires Sound(g, p) && RecordsLast(g, h, made)
    ensures Sound(h, p) <==> Publishable(p, g.editions[made.edition].version, made.revision)
  {
    RecordedOk(g, p, h, made);
    if Publishable(p, g.editions[made.edition].version, made.revision) {
      forall i | 0 <= i < |h.releases|
        ensures ReleaseMatchesPlay(h, p, i)
      {
        if i < |g.releases| { assert ReleaseMatchesPlay(g, p, i); }
      }
      KnownStays(g, h);
    } else {
      assert !ReleaseMatchesPlay(h, p, |g.releases|);
    }
  }

  /** BeginPublication is given a revision and no version: recording a release keeps the
      stores in agreement exactly when Play has that revision of the open edition ready, or
      is past it. */
  lemma BeginKeepsIffPublishable(g: Game, p: Play, user: string, revision: nat, visibility: Visibility, key: Key)
    requires Sound(g, p)
    ensures var (h, answer) := BeginPublication(g, user, revision, visibility, key);
            && (h == g || answer == Started(|g.releases|))
            && (h != g ==>
                  && LatestEdition(g.editions, Editing).Some?
                  && Grows(g, p, h, p)
                  && (Sound(h, p) <==> Publishable(p, g.editions[LatestEdition(g.editions, Editing).value].version, revision)))
  {
    var h := BeginPublication(g, user, revision, visibility, key).0;
    BeginRecords(g, user, revision, visibility, key);
    if h != g {
      var made := Release(LatestEdition(g.editions, Editing).value, revision, visibility, key, Pending);
      RecordedOk(g, p, h, made);
      RecordedAgreesIff(g, p, h, made);
    }
  }

  /** OpenEdition refuses, replays what key recorded, or adds an edition. */
  lemma OpenAnswers(g: Game, user: string, key: Key, newVersion: Uuid)
    ensures var (h, answer) := OpenEdition(g, user, key, newVersion);
            var base := LatestEdition(g.editions, Published);
            || (h == g && !answer.Opened? && !answer.BrokenRequest?)
            || (h == g && key in g.requests && (if g.requests[key] >= |g.editions| || base.None? then answer.BrokenRequest?
                  else answer == Opened(g.editions[g.requests[key]].version, g.editions[base.value].version)))
            || (Opens(g, h, newVersion) && base.Some? && answer == Opened(newVersion, g.editions[base.value].version))
  {
  }

  predicate Opens(g: Game, h: Game, newVersion: Uuid) {
    && PendingRelease(g.releases).None? && LatestEdition(g.editions, Editing).None?
    && h == g.(editions := g.editions + [Edition(newVersion, Editing)], requests := h.requests)
    && forall k :: k in h.requests ==> (k in g.requests && h.requests[k] == g.requests[k]) || h.requests[k] == |g.editions|
  }

  lemma OpenKeeps(g: Game, p: Play, user: string, key: Key, newVersion: Uuid)
    requires Sound(g, p) && !Known(g, newVersion)
    ensures var (h, answer) := OpenEdition(g, user, key, newVersion);
            && Sound(h, p) && Grows(g, p, h, p) && !answer.BrokenRequest?
            && (answer.Opened? ==> Known(h, answer.version) && IsFrozen(p, answer.base))
  {
    OpenAnswers(g, user, key, newVersion);
    OpenAnswerKeeps(g, p, key, newVersion, OpenEdition(g, user, key, newVersion).0, OpenEdition(g, user, key, newVersion).1);
  }

  lemma OpenAnswerKeeps(g: Game, p: Play, key: Key, newVersion: Uuid, h: Game, answer: Opening)
    requires Sound(g, p) && !Known(g, newVersion)
    requires var base := LatestEdition(g.editions, Published);
             || (h == g && !answer.Opened? && !answer.BrokenRequest?)
             || (h == g && key in g.requests && (if g.requests[key] >= |g.editions| || base.None? then answer.BrokenRequest?
                   else answer == Opened(g.editions[g.requests[key]].version, g.editions[base.value].version)))
             || (Opens(g, h, newVersion) && base.Some? && answer == Opened(newVersion, g.editions[base.value].version))
    ensures Sound(h, p) && Grows(g, p, h, p) && !answer.BrokenRequest?
    ensures answer.Opened? ==> Known(h, answer.version) && IsFrozen(p, answer.base)
  {
    if h != g {
      OpenedKeeps(g, p, h, newVersion);
      assert h.editions[|g.editions|].version == newVersion;
    } else if key in g.requests {
      ReplayKeeps(g, p, key);
    }
  }

  /** A recorded opening names an edition beside which one is published. */
  lemma ReplayKeeps(g: Game, p: Play, key: Key)
    requires Sound(g, p) && key in g.requests
    ensures g.requests[key] < |g.editions| && Known(g, g.editions[g.requests[key]].version)
    ensures LatestEdition(g.editions, Published).Some?
  {
    var i := g.requests[key];
    assert g.editions[0].status == Published;
    assert g.editions[i].version == g.editions[i].version;
  }

  lemma OpenedKeeps(g: Game, p: Play, h: Game, newVersion: Uuid)
    requires Sound(g, p) && !Known(g, newVersion) && Opens(g, h, newVersion)
    ensures Sound(h, p) && Grows(g, p, h, p)
  {
    OpenedEditionsOk(g, h, newVersion);
    OpenedReleasesOk(g, h, newVersion);
    OpenedAgrees(g, p, h, newVersion);
  }

  lemma OpenedReleasesOk(g: Game, h: Game, newVersion: Uuid)
    requires EditionsOk(g) && ReleasesOk(g) && Opens(g, h, newVersion)
    ensures ReleasesOk(h)
  {
  }

  lemma OpenedAgrees(g: Game, p: Play, h: Game, newVersion: Uuid)
    requires Sound(g, p) && !Known(g, newVersion) && Opens(g, h, newVersion) && EditionsOk(h) && ReleasesOk(h)
    ensures StoresAgree(h, p)
  {
    KnownStays(g, h);
    assert newVersion !in p.versions;
    forall i | 0 <= i < |h.releases|
      ensures ReleaseMatchesPlay(h, p, i)
    {
      assert ReleaseMatchesPlay(g, p, i);
    }
  }

  lemma OpenedEditionsOk(g: Game, h: Game, newVersion: Uuid)
    requires EditionsOk(g) && !Known(g, newVersion) && LatestEdition(g.editions, Editing).None?
    requires h.editions == g.editions + [Edition(newVersion, Editing)]
    ensures EditionsOk(h)
  {
    forall i, j | 0 <= i < j < |h.editions|
      ensures h.editions[i].version != h.editions[j].version
    {
      assert Known(g, g.editions[i].version);
    }
  }

  lemma EditableFacts(g: Game, p: Play, user: string)
    requires Sound(g, p)
    ensures var answer := FindEditableVersion(g, user);
            answer.EditableFound? ==> Known(g, answer.version) && BaseOk(p, answer.base)
  {
  }

  /** Any DRAFT Play holds is the open edition's, so it never holds two. */
  lemma DraftIsTheOpenEditions(g: Game, p: Play, version: Uuid)
    requires Sound(g, p) && version in p.versions && p.versions[version].Draft?
    ensures g.editions[|g.editions| - 1] == Edition(version, Editing)
  {
    var i :| 0 <= i < |g.editions| && g.editions[i].version == version;
  }

  lemma NoOtherDraft(g: Game, p: Play, version: Uuid)
    requires Sound(g, p) && Known(g, version) && version !in p.versions
    ensures !HasDraft(p)
  {
    var i :| 0 <= i < |g.editions| && g.editions[i].version == version;
    assert g.editions[i].status == Editing;
    forall v | v in p.versions
      ensures !p.versions[v].Draft?
    {
      if p.versions[v].Draft? { DraftIsTheOpenEditions(g, p, v); }
    }
  }

  lemma CreateDraftKeeps(g: Game, p: Play, version: Uuid, base: Option<Uuid>)
    requires Sound(g, p) && Known(g, version)
    ensures var (q, answer) := CreateDraftVersion(p, version, base);
            && Sound(g, q) && Grows(g, p, g, q) && !answer.DraftAnotherOpen?
  {
    var (q, answer) := CreateDraftVersion(p, version, base);
    if version !in p.versions {
      NoOtherDraft(g, p, version);
    }
    forall r | 0 <= r < |g.releases|
      ensures ReleaseMatchesPlay(g, q, r)
    {
      assert ReleaseMatchesPlay(g, p, r);
    }
  }

  lemma EditKeeps(g: Game, p: Play, version: Uuid, accepted: bool)
    requires Sound(g, p)
    ensures var q := EditDraft(p, version, accepted).0; Sound(g, q) && Grows(g, p, g, q)
  {
    var q := EditDraft(p, version, accepted).0;
    forall r | 0 <= r < |g.releases|
      ensures ReleaseMatchesPlay(g, q, r)
    {
      assert ReleaseMatchesPlay(g, p, r);
    }
  }

  lemma BuildKeeps(g: Game, p: Play, version: Uuid, revision: nat)
    requires Sound(g, p)
    ensures var q := FinishBuild(p, version, revision); Sound(g, q) && Grows(g, p, g, q)
  {
    var q := FinishBuild(p, version, revision);
    forall r | 0 <= r < |g.releases|
      ensures ReleaseMatchesPlay(g, q, r)
    {
      assert ReleaseMatchesPlay(g, p, r);
    }
  }

  // --- Every step of every call ---

  /** BeginPublication records a release only of the version this call checked: no new
      edition was opened between its CheckPublication and its BeginPublication. */
  predicate Undisturbed(g: Game, user: string, pc: Pc) {
    pc.Beginning? && BeginPublication(g, user, pc.revision, pc.visibility, pc.key).0 != g ==>
      LatestEdition(g.editions, Editing).Some?
      && g.editions[LatestEdition(g.editions, Editing).value].version == pc.version
  }

  predicate Kept(g: Game, p: Play, h: Game, q: Play, to: Pc) {
    Sound(h, q) && Grows(g, p, h, q) && PcOk(h, q, to)
  }

  lemma FreezingKeeps(g: Game, p: Play, release: nat, next: Then)
    requires Sound(g, p) && release < |g.releases|
    ensures var (q, to) := ActFreezing(g, p, release, next); Kept(g, p, g, q, to)
  {
    FreezeKeeps(g, p, release);
  }

  lemma CompletingKeeps(g: Game, p: Play, release: nat, next: Then)
    requires Sound(g, p) && PcOk(g, p, Completing(release, next))
    ensures var (h, to) := ActCompleting(g, release, next); Kept(g, p, h, p, to)
  {
    CompleteKeeps(g, p, release);
  }

  lemma BeginningGoesOn(g: Game, p: Play, user: string, pc: Pc)
    requires pc.Beginning?
    ensures var (h, to) := ActBeginning(g, user, pc); PcOk(h, p, to)
  {
  }

  lemma BeginningKeeps(g: Game, p: Play, user: string, pc: Pc)
    requires Sound(g, p) && PcOk(g, p, pc) && pc.Beginning? && Undisturbed(g, user, pc)
    ensures var (h, to) := ActBeginning(g, user, pc); Kept(g, p, h, p, to)
  {
    BeginningGoesOn(g, p, user, pc);
    BeginStoreKeeps(g, p, user, pc);
  }

  lemma BeginStoreKeeps(g: Game, p: Play, user: string, pc: Pc)
    requires Sound(g, p) && PcOk(g, p, pc) && pc.Beginning? && Undisturbed(g, user, pc)
    ensures var h := BeginPublication(g, user, pc.revision, pc.visibility, pc.key).0; Sound(h, p) && Grows(g, p, h, p)
  {
    var h := BeginPublication(g, user, pc.revision, pc.visibility, pc.key).0;
    BeginRecords(g, user, pc.revision, pc.visibility, pc.key);
    if h != g {
      var made := Release(LatestEdition(g.editions, Editing).value, pc.revision, pc.visibility, pc.key, Pending);
      OpenVersionIsDraft(g, p, pc.version);
      RecordedOk(g, p, h, made);
      RecordedAgreesIff(g, p, h, made);
    }
  }

  lemma OpeningKeeps(g: Game, p: Play, user: string, key: Key, newVersion: Uuid)
    requires Sound(g, p) && !Known(g, newVersion)
    ensures var (h, to) := ActOpening(g, user, key, newVersion); Kept(g, p, h, p, to)
  {
    OpenKeeps(g, p, user, key, newVersion);
  }

  lemma EditingKeeps(g: Game, p: Play, pc: Pc, accepted: bool)
    requires Sound(g, p) && PcOk(g, p, pc) && pc.EditingDraft?
    ensures var (q, to) := ActEditing(p, pc, accepted); Kept(g, p, g, q, to)
  {
    EditKeeps(g, p, pc.version, accepted);
  }

  lemma CreatingKeeps(g: Game, p: Play, version: Uuid, base: Option<Uuid>, back: Option<Pc>)
    requires Sound(g, p) && PcOk(g, p, CreatingDraft(version, base, back))
    ensures var (q, to) := ActCreating(p, version, base, back); Kept(g, p, g, q, to)
  {
    CreateDraftKeeps(g, p, version, base);
    if back.Some? {
      PcStaysOk(g, p, g, CreateDraftVersion(p, version, base).0, back.value);
    }
  }

  lemma CheckingKeeps(g: Game, p: Play, pc: Pc)
    requires Sound(g, p) && PcOk(g, p, pc) && pc.Checking?
    ensures Kept(g, p, g, p, ActChecking(p, pc))
  {
  }

  lemma ReadingKeeps(g: Game, p: Play, user: string, pc: Pc)
    requires Sound(g, p) && PcOk(g, p, pc)
    ensures Kept(g, p, g, p, ActReading(g, user, pc))
  {
    EditableFacts(g, p, user);
  }

  predicate ActsOnPlay(pc: Pc) { pc.Freezing? || pc.Checking? || pc.EditingDraft? || pc.CreatingDraft? }

  lemma ActOnPlayKeeps(g: Game, p: Play, user: string, pc: Pc, newVersion: Uuid, accepted: bool)
    requires Sound(g, p) && PcOk(g, p, pc) && ActsOnPlay(pc)
    ensures var (h, q, to) := Act(g, p, user, pc, newVersion, accepted); Kept(g, p, h, q, to)
  {
    match pc
    case Freezing(release, next) => FreezingKeeps(g, p, release, next);
    case Checking(_, _, _, _, _) => CheckingKeeps(g, p, pc);
    case EditingDraft(_, _, _) => EditingKeeps(g, p, pc, accepted);
    case CreatingDraft(version, base, back) => CreatingKeeps(g, p, version, base, back);
  }

  lemma ActOnGameKeeps(g: Game, p: Play, user: string, pc: Pc, newVersion: Uuid, accepted: bool)
    requires Sound(g, p) && PcOk(g, p, pc) && Undisturbed(g, user, pc) && !ActsOnPlay(pc)
    requires pc.Opening? ==> !Known(g, newVersion)
    ensures var (h, q, to) := Act(g, p, user, pc, newVersion, accepted); Kept(g, p, h, q, to)
  {
    match pc
    case Completing(_, _) => ActEndingKeeps(g, p, user, pc, newVersion, accepted);
    case Abandoning(_, _) => ActEndingKeeps(g, p, user, pc, newVersion, accepted);
    case Beginning(_, _, _, _) => BeginningKeeps(g, p, user, pc);
    case Opening(key) => OpeningKeeps(g, p, user, key, newVersion);
    case _ => ReadingKeeps(g, p, user, pc);
  }

  lemma ActEndingKeeps(g: Game, p: Play, user: string, pc: Pc, newVersion: Uuid, accepted: bool)
    requires Sound(g, p) && PcOk(g, p, pc) && (pc.Completing? || pc.Abandoning?)
    ensures var (h, q, to) := Act(g, p, user, pc, newVersion, accepted); Kept(g, p, h, q, to)
  {
    if pc.Completing? {
      CompletingKeeps(g, p, pc.release, pc.next);
    } else {
      AbandonKeeps(g, p, pc.release);
    }
  }

  lemma ActKeeps(g: Game, p: Play, user: string, pc: Pc, newVersion: Uuid, accepted: bool)
    requires Sound(g, p) && PcOk(g, p, pc) && Undisturbed(g, user, pc)
    requires pc.Opening? ==> !Known(g, newVersion)
    ensures var (h, q, to) := Act(g, p, user, pc, newVersion, accepted); Kept(g, p, h, q, to)
  {
    if ActsOnPlay(pc) {
      ActOnPlayKeeps(g, p, user, pc, newVersion, accepted);
    } else {
      ActOnGameKeeps(g, p, user, pc, newVersion, accepted);
    }
  }

  lemma OpenVersionIsDraft(g: Game, p: Play, version: Uuid)
    requires Sound(g, p) && PendingRelease(g.releases).None? && LatestEdition(g.editions, Editing).Some?
    requires version == g.editions[LatestEdition(g.editions, Editing).value].version
    ensures !IsFrozen(p, version)
  {
    assert !HasPending(g);
  }

  // --- Runs: calls interleaving, stopping anywhere, and builds finishing ---

  datatype Call = Call(user: string, pc: Pc)

  datatype System = System(game: Game, play: Play, calls: map<nat, Call>)

  datatype Event =
    | Arrives(id: nat, call: Call)
    | Acts(id: nat, newVersion: Uuid, accepted: bool)
    | Crashes(id: nat)
    | BuildFinishes(version: Uuid, revision: nat)
    | Renamed(named: bool)

  /** Where the orchestrator's operations start; the last is the draft of CreateGame, whose
      claim is its owner's, retried at any time with the game's first edition. */
  predicate IsArrival(g: Game, call: Call) {
    || call.pc.Resuming?
    || call.pc == Ensuring
    || (g.editions != [] && call == Call(g.owner, CreatingDraft(g.editions[0].version, None, None)))
  }

  predicate Enabled(s: System, e: Event) {
    match e
    case Arrives(id, call) => id !in s.calls && IsArrival(s.game, call)
    case Acts(id, newVersion, _) =>
      id in s.calls && !s.calls[id].pc.Done? && (s.calls[id].pc.Opening? ==> !Known(s.game, newVersion))
    case Crashes(id) => id in s.calls
    case BuildFinishes(_, _) => true
    case Renamed(_) => true
  }

  function After(s: System, e: Event): System
    requires Enabled(s, e)
  {
    match e
    case Arrives(id, call) => s.(calls := s.calls[id := call])
    case Acts(id, newVersion, accepted) =>
      var c := s.calls[id];
      var (g, p, pc) := Act(s.game, s.play, c.user, c.pc, newVersion, accepted);
      System(g, p, s.calls[id := c.(pc := pc)])
    case Crashes(id) => s.(calls := s.calls - {id})
    case BuildFinishes(version, revision) => s.(play := FinishBuild(s.play, version, revision))
    case Renamed(named) => s.(game := s.game.(named := named))
  }

  predicate EventUndisturbed(s: System, e: Event) {
    e.Acts? && e.id in s.calls ==> Undisturbed(s.game, s.calls[e.id].user, s.calls[e.id].pc)
  }

  /** events happen one after another from s. */
  predicate Runs(s: System, events: seq<Event>)
    decreases events
  {
    events == [] || (Enabled(s, events[0]) && Runs(After(s, events[0]), events[1..]))
  }

  function Final(s: System, events: seq<Event>): System
    requires Runs(s, events)
    decreases events
  {
    if events == [] then s else Final(After(s, events[0]), events[1..])
  }

  predicate RunUndisturbed(s: System, events: seq<Event>)
    requires Runs(s, events)
    decreases events
  {
    events == [] || (EventUndisturbed(s, events[0]) && RunUndisturbed(After(s, events[0]), events[1..]))
  }

  predicate SystemOk(s: System) {
    Sound(s.game, s.play) && forall id :: id in s.calls ==> PcOk(s.game, s.play, s.calls[id].pc)
  }

  function Initial(owner: string, version: Uuid): System {
    System(NewGame(owner, version), Play(map[], None), map[])
  }

  lemma EventKeepsSound(s: System, e: Event)
    requires SystemOk(s) && Enabled(s, e) && EventUndisturbed(s, e)
    ensures var t := After(s, e); Sound(t.game, t.play) && Grows(s.game, s.play, t.game, t.play)
    ensures e.Acts? ==> PcOk(After(s, e).game, After(s, e).play, After(s, e).calls[e.id].pc)
  {
    match e
    case Acts(id, newVersion, accepted) =>
      ActKeeps(s.game, s.play, s.calls[id].user, s.calls[id].pc, newVersion, accepted);
    case BuildFinishes(version, revision) => BuildKeeps(s.game, s.play, version, revision);
    case Renamed(_) => RenameKeeps(s.game, s.play, After(s, e).game);
    case _ =>
  }

  lemma EventKeepsOk(s: System, e: Event)
    requires SystemOk(s) && Enabled(s, e) && EventUndisturbed(s, e)
    ensures var t := After(s, e); SystemOk(t) && Grows(s.game, s.play, t.game, t.play)
  {
    var t := After(s, e);
    EventKeepsSound(s, e);
    forall id | id in t.calls
      ensures PcOk(t.game, t.play, t.calls[id].pc)
    {
      if id in s.calls && t.calls[id] == s.calls[id] {
        PcStaysOk(s.game, s.play, t.game, t.play, s.calls[id].pc);
      } else if e.Arrives? && e.call.pc.CreatingDraft? {
        assert Known(s.game, s.game.editions[0].version);
      }
    }
  }

  lemma RenameKeeps(g: Game, p: Play, h: Game)
    requires Sound(g, p) && h == g.(named := h.named)
    ensures Sound(h, p) && Grows(g, p, h, p)
  {
    KnownStays(g, h);
    forall r | 0 <= r < |g.releases|
      ensures ReleaseMatchesPlay(h, p, r)
    {
      assert ReleaseMatchesPlay(g, p, r);
    }
    assert HasPending(g) ==> HasPending(h) by {
      if HasPending(g) {
        var i :| 0 <= i < |g.releases| && g.releases[i].end == Pending;
        assert h.releases[i].end == Pending;
      }
    }
  }

  /** The agreement of the two stores survives every run of any number of calls, crashing
      anywhere, and everything written only moves forward. */
  lemma {:induction false} EveryRunKeepsOk(s: System, events: seq<Event>)
    requires SystemOk(s) && Runs(s, events) && RunUndisturbed(s, events)
    ensures SystemOk(Final(s, events))
    ensures Grows(s.game, s.play, Final(s, events).game, Final(s, events).play)
    decreases events
  {
    if events != [] {
      var t := After(s, events[0]);
      EventKeepsOk(s, events[0]);
      EveryRunKeepsOk(t, events[1..]);
      GrowsIsTransitive(s.game, s.play, t.game, t.play, Final(t, events[1..]).game, Final(t, events[1..]).play);
    }
  }

  lemma InitialIsOk(owner: string, version: Uuid)
    ensures SystemOk(Initial(owner, version))
  {
  }

  // --- What that means to a reader of the two stores ---

  predicate BeingPublished(g: Game, edition: nat, revision: nat) {
    exists r :: 0 <= r < |g.releases| && g.releases[r].end == Pending
      && g.releases[r].edition == edition && g.releases[r].revision == revision
  }

  /** Some edition of version is published, or is being published at revision. */
  predicate Accounted(g: Game, version: Uuid, revision: nat) {
    exists i :: 0 <= i < |g.editions| && g.editions[i].version == version
      && (g.editions[i].status == Published || BeingPublished(g, i, revision))
  }

  /** A frozen version is a published edition or one being published, and a published
      edition is frozen. */
  predicate FrozenMeansPublished(g: Game, p: Play) {
    && (forall v :: v in p.versions && p.versions[v].Executable? ==> Accounted(g, v, p.versions[v].revision))
    && (forall i :: 0 <= i < |g.editions| && g.editions[i].status == Published ==> IsFrozen(p, g.editions[i].version))
  }

  /** At most one edition is open and one release pending, whose edition is open. */
  predicate OneOpenEach(g: Game) {
    && (forall i, j :: 0 <= i < j < |g.editions| ==> g.editions[i].status == Published || g.editions[j].status == Published)
    && (forall i, j :: 0 <= i < j < |g.releases| ==> g.releases[i].end != Pending || g.releases[j].end != Pending)
    && (forall r :: 0 <= r < |g.releases| && g.releases[r].end == Pending ==>
          g.releases[r].edition < |g.editions| && g.editions[g.releases[r].edition].status == Editing)
  }

  /** Play has at most one DRAFT, which is the open edition's. */
  predicate OneDraft(g: Game, p: Play) {
    && (forall v, w :: v in p.versions && w in p.versions && p.versions[v].Draft? && p.versions[w].Draft? ==> v == w)
    && (forall v :: v in p.versions && p.versions[v].Draft? ==>
          exists i :: 0 <= i < |g.editions| && g.editions[i] == Edition(v, Editing))
  }

  /** In every state any run reaches, and no call ever raised an alert. */
  lemma SafetyOfEveryRun(owner: string, version: Uuid, events: seq<Event>)
    requires Runs(Initial(owner, version), events) && RunUndisturbed(Initial(owner, version), events)
    ensures var s := Final(Initial(owner, version), events);
            && FrozenMeansPublished(s.game, s.play) && OneOpenEach(s.game) && OneDraft(s.game, s.play)
            && forall id :: id in s.calls ==> s.calls[id].pc != Done(Alerted)
  {
    InitialIsOk(owner, version);
    EveryRunKeepsOk(Initial(owner, version), events);
    var s := Final(Initial(owner, version), events);
    SoundIsSafe(s.game, s.play);
  }

  lemma SoundIsSafe(g: Game, p: Play)
    requires Sound(g, p)
    ensures FrozenMeansPublished(g, p) && OneOpenEach(g) && OneDraft(g, p)
  {
    forall v | v in p.versions && p.versions[v].Executable?
      ensures Accounted(g, v, p.versions[v].revision)
    {
      FrozenIsAccountedFor(g, p, v);
    }
    forall v | v in p.versions && p.versions[v].Draft?
      ensures g.editions[|g.editions| - 1] == Edition(v, Editing)
    {
      DraftIsTheOpenEditions(g, p, v);
    }
  }

  lemma FrozenIsAccountedFor(g: Game, p: Play, v: Uuid)
    requires Sound(g, p) && IsFrozen(p, v)
    ensures Accounted(g, v, p.versions[v].revision)
  {
    assert Known(g, v);
    var i :| 0 <= i < |g.editions| && g.editions[i].version == v;
    if g.editions[i].status == Editing {
      assert HasPending(g);
      var r :| 0 <= r < |g.releases| && g.releases[r].end == Pending;
      assert ReleaseMatchesPlay(g, p, r);
      assert BeingPublished(g, i, p.versions[v].revision);
    }
  }

  /** A release abandoned at some point of a run is of a version Play has at its revision
      frozen neither before nor after, however many calls were finishing it. */
  lemma AbandonedIsNeverFrozen(s: System, before: seq<Event>, after: seq<Event>, release: nat)
    requires SystemOk(s) && Runs(s, before) && RunUndisturbed(s, before)
    requires Runs(Final(s, before), after) && RunUndisturbed(Final(s, before), after)
    requires release < |Final(s, before).game.releases| && Final(s, before).game.releases[release].end == Abandoned
    requires Final(s, before).game.releases[release].edition < |Final(s, before).game.editions|
    ensures var mid := Final(s, before);
            var version, revision := VersionOf(mid.game, release), mid.game.releases[release].revision;
            !FrozenAt(s.play, version, revision) && !FrozenAt(Final(mid, after).play, version, revision)
  {
    var mid := Final(s, before);
    EveryRunKeepsOk(s, before);
    EveryRunKeepsOk(mid, after);
    assert ReleaseMatchesPlay(mid.game, mid.play, release);
    assert ReleaseGrows(mid.game.releases[release], Final(mid, after).game.releases[release]);
  }
}
