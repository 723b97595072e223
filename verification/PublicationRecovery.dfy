/** The orchestrator's operations run alone and to the end, and what one then does about
    anything an earlier crash left behind (orchestrator/gameauthoring). */
module PublicationRecovery {
  import opened Options
  import opened GameLifecycle
  import opened PlayVersions
  import opened Publication

  function ThenRank(next: Then): nat { if next.GoOn? then 20 else 0 }

  /** How many more store operations a call can need. */
  function Rank(pc: Pc): nat {
    match pc
    case Resuming(_) => 23
    case Freezing(_, next) => ThenRank(next) + 2
    case Completing(_, next) => ThenRank(next) + 1
    case Abandoning(_, next) => ThenRank(next) + 1
    case FindingByKey(_, _) => 17
    case FindingEditable(_) => 16
    case Ensuring => 16
    case Opening(_) => 16
    case Checking(_, _, _, _, repaired) => if repaired then 13 else 15
    case EditingDraft(_, _, repaired) => if repaired then 13 else 15
    case CreatingDraft(_, _, back) => if back.Some? then Rank(back.value) + 1 else 1
    case Beginning(_, _, _, _) => 12
    case Done(_) => 0
  }

  /** A call's own shape: a draft created on the way is checked or edited just once more. */
  predicate Shaped(pc: Pc) {
    pc.CreatingDraft? && pc.back.Some? ==>
      (pc.back.value.Checking? || pc.back.value.EditingDraft?) && pc.back.value.repaired
  }

  lemma ActGoesOn(g: Game, p: Play, user: string, pc: Pc, newVersion: Uuid, accepted: bool)
    requires Shaped(pc) && !pc.Done?
    ensures var to := Act(g, p, user, pc, newVersion, accepted).2; Shaped(to) && Rank(to) < Rank(pc)
  {
    if ActsOnPlay(pc) {
      ActOnPlayGoesOn(g, p, user, pc, newVersion, accepted);
    } else {
      ActOnGameGoesOn(g, p, user, pc, newVersion, accepted);
    }
  }

  lemma ActOnPlayGoesOn(g: Game, p: Play, user: string, pc: Pc, newVersion: Uuid, accepted: bool)
    requires Shaped(pc) && ActsOnPlay(pc)
    ensures var to := Act(g, p, user, pc, newVersion, accepted).2; Shaped(to) && Rank(to) < Rank(pc)
  {
  }

  lemma ActOnGameGoesOn(g: Game, p: Play, user: string, pc: Pc, newVersion: Uuid, accepted: bool)
    requires Shaped(pc) && !pc.Done? && !ActsOnPlay(pc)
    ensures var to := Act(g, p, user, pc, newVersion, accepted).2; Shaped(to) && Rank(to) < Rank(pc)
  {
  }

  /** A call standing at pc, run to its answer with nothing else happening. */
  function Alone(g: Game, p: Play, user: string, pc: Pc, newVersion: Uuid, accepted: bool): (Game, Play, Answer)
    requires Shaped(pc)
    decreases Rank(pc)
  {
    if pc.Done? then (g, p, pc.answer)
    else
      ActGoesOn(g, p, user, pc, newVersion, accepted);
      var (h, q, to) := Act(g, p, user, pc, newVersion, accepted);
      Alone(h, q, user, to, newVersion, accepted)
  }

  // --- The operations as the orchestrator writes them ---

  datatype Finish = FinishCompleted | FinishAbandoned | FinishFailed | FinishAlerted

  function FinishedAt(finish: Finish, release: nat, next: Then): Pc {
    match finish
    case FinishCompleted => AfterCompleting(release, next)
    case FinishAbandoned => AfterAbandoning(release, next)
    case FinishFailed => Done(Failed)
    case FinishAlerted => Done(Alerted)
  }

  class Manager {
    const games: GameStore
    const versions: PlayStore
    const user: string

    constructor (games: GameStore, versions: PlayStore, user: string)
      ensures this.games == games && this.versions == versions && this.user == user
    {
      this.games, this.versions, this.user := games, versions, user;
    }

    ghost function Rest(pc: Pc, newVersion: Uuid, accepted: bool): (Game, Play, Answer)
      requires Shaped(pc)
      reads games, versions
    {
      Alone(games.game, versions.play, user, pc, newVersion, accepted)
    }

    /** The two store calls that finish a release, and where each of their answers leads. */
    method FinishRelease(release: nat, ghost next: Then, ghost newVersion: Uuid, ghost accepted: bool) returns (finish: Finish)
      modifies games, versions
      ensures old(Rest(Freezing(release, next), newVersion, accepted)) == Rest(FinishedAt(finish, release, next), newVersion, accepted)
    {
      if release >= |games.game.releases| || games.game.releases[release].edition >= |games.game.editions| {
        return FinishFailed;
      }
      var r := games.game.releases[release];
      var frozen := versions.Freeze(games.game.editions[r.edition].version, r.revision);
      if frozen == FreezeMissing {
        return FinishFailed;
      }
      if frozen == FreezeNotReady {
        assert old(Rest(Freezing(release, next), newVersion, accepted)) == Rest(Abandoning(release, next), newVersion, accepted);
        games.Abandon(release);
        return FinishAbandoned;
      }
      assert old(Rest(Freezing(release, next), newVersion, accepted)) == Rest(Completing(release, next), newVersion, accepted);
      var completed := games.Complete(release);
      return match completed
             case ReleaseCompleted => FinishCompleted
             case EditionNotOpen => FinishAlerted
             case _ => FinishFailed;
    }

    /** Finishes the release a crash left being published, if any; its own answer is dropped. */
    method ResumePublication(ghost goal: Goal, ghost newVersion: Uuid, ghost accepted: bool) returns (finish: Finish)
      modifies games, versions
      ensures old(Rest(Resuming(goal), newVersion, accepted)) == Rest(FinishedAt(finish, 0, GoOn(goal)), newVersion, accepted)
    {
      var pending := FindPendingPublication(games.game, user);
      if pending.None? {
        return FinishCompleted;
      }
      finish := FinishRelease(pending.value, GoOn(goal), newVersion, accepted);
    }

    /** Creates version in Play, or finds it there as a DRAFT, at some revision. */
    method CreateDraft(version: Uuid, base: Option<Uuid>, ghost back: Option<Pc>, ghost newVersion: Uuid, ghost accepted: bool)
      returns (failed: Option<Answer>, revision: nat)
      requires Shaped(CreatingDraft(version, base, back))
      modifies versions
      ensures old(Rest(CreatingDraft(version, base, back), newVersion, accepted))
           == Rest(if failed.Some? then Done(failed.value) else if back.Some? then back.value else Done(DraftEnsured(version, revision)),
                   newVersion, accepted)
    {
      var draft := versions.CreateDraft(version, base);
      match draft
      case DraftCreated => return None, 1;
      case DraftAlreadyCreated(found) => return None, found;
      case DraftAnotherOpen => return Some(Alerted), 0;
      case DraftConflict => return Some(Failed), 0;
      case DraftNoBase => return Some(Failed), 0;
    }

    method Publish(visibility: Visibility, key: Key, ghost newVersion: Uuid, ghost accepted: bool) returns (answer: Answer)
      modifies games, versions
      ensures (games.game, versions.play, answer) == old(Rest(Resuming(ToPublish(visibility, key)), newVersion, accepted))
    {
      ghost var whole := Rest(Resuming(ToPublish(visibility, key)), newVersion, accepted);
      var resumed := ResumePublication(ToPublish(visibility, key), newVersion, accepted);
      if resumed.FinishFailed? || resumed.FinishAlerted? {
        return if resumed.FinishFailed? then Failed else Alerted;
      }
      assert whole == Rest(FindingByKey(visibility, key), newVersion, accepted);
      var earlier := FindPublication(games.game, user, key);
      if earlier.Some? {
        if earlier.value.EndedCompleted? {
          assert whole == Rest(Done(PublishedRelease(earlier.value.release)), newVersion, accepted);
          return PublishedRelease(earlier.value.release);
        }
        if earlier.value.EndedAbandoned? {
          assert whole == Rest(Done(NotPublishedRelease(earlier.value.release)), newVersion, accepted);
          return NotPublishedRelease(earlier.value.release);
        }
      }
      assert whole == Rest(FindingEditable(ToPublish(visibility, key)), newVersion, accepted);
      var editable := FindEditableVersion(games.game, user);
      if !editable.EditableFound? {
        assert whole == Rest(Done(EditableRefused(editable)), newVersion, accepted);
        return EditableRefused(editable);
      }
      assert whole == Rest(Checking(editable.version, editable.base, visibility, key, false), newVersion, accepted);
      answer := CheckAndBegin(editable.version, editable.base, visibility, key, newVersion, accepted);
    }

    /** The rest of Publish, once the version is known: repair it, check it, record the
        release and finish it. */
    method CheckAndBegin(version: Uuid, base: Option<Uuid>, visibility: Visibility, key: Key, ghost newVersion: Uuid, ghost accepted: bool)
      returns (answer: Answer)
      modifies games, versions
      ensures (games.game, versions.play, answer)
           == old(Rest(Checking(version, base, visibility, key, false), newVersion, accepted))
    {
      ghost var whole := Rest(Checking(version, base, visibility, key, false), newVersion, accepted);
      ghost var again := Checking(version, base, visibility, key, true);
      var readiness := CheckPublication(versions.play, version);
      if readiness.CheckMissing? {
        assert whole == Rest(CreatingDraft(version, base, Some(again)), newVersion, accepted);
        var failed, revision := CreateDraft(version, base, Some(again), newVersion, accepted);
        if failed.Some? {
          return failed.value;
        }
        assert whole == Rest(again, newVersion, accepted);
        readiness := CheckPublication(versions.play, version);
      }
      match readiness
      case CheckMissing =>
        assert whole == Rest(Done(Failed), newVersion, accepted);
        return Failed;
      case CheckNotReady =>
        assert whole == Rest(Done(VersionNotReady), newVersion, accepted);
        return VersionNotReady;
      case CheckNotEditable =>
        assert whole == Rest(Done(PublicationRefused(NotEditable)), newVersion, accepted);
        return PublicationRefused(NotEditable);
      case CheckReady(revision) =>
        assert whole == Rest(Beginning(version, revision, visibility, key), newVersion, accepted);
        answer := BeginAndFinish(version, revision, visibility, key, newVersion, accepted);
    }

    method BeginAndFinish(ghost version: Uuid, revision: nat, visibility: Visibility, key: Key, ghost newVersion: Uuid, ghost accepted: bool)
      returns (answer: Answer)
      modifies games, versions
      ensures (games.game, versions.play, answer)
           == old(Rest(Beginning(version, revision, visibility, key), newVersion, accepted))
    {
      ghost var whole := Rest(Beginning(version, revision, visibility, key), newVersion, accepted);
      var started := games.Begin(user, revision, visibility, key);
      match started
      case EndedCompleted(release) =>
        assert whole == Rest(Done(PublishedRelease(release)), newVersion, accepted);
        return PublishedRelease(release);
      case EndedAbandoned(release) =>
        assert whole == Rest(Done(NotPublishedRelease(release)), newVersion, accepted);
        return NotPublishedRelease(release);
      case Started(release) =>
        assert whole == Rest(Freezing(release, AnswerOwn), newVersion, accepted);
        var finish := FinishRelease(release, AnswerOwn, newVersion, accepted);
        return FinishedAt(finish, release, AnswerOwn).answer;
      case PendingFirst(release) =>
        assert whole == Rest(Freezing(release, AnswerEarlier), newVersion, accepted);
        var finish := FinishRelease(release, AnswerEarlier, newVersion, accepted);
        return FinishedAt(finish, release, AnswerEarlier).answer;
      case _ =>
        assert whole == Rest(Done(PublicationRefused(started)), newVersion, accepted);
        return PublicationRefused(started);
    }

    method OpenNewEdition(key: Key, newVersion: Uuid, ghost accepted: bool) returns (answer: Answer)
      modifies games, versions
      ensures (games.game, versions.play, answer) == old(Rest(Resuming(ToOpen(key)), newVersion, accepted))
    {
      ghost var whole := Rest(Resuming(ToOpen(key)), newVersion, accepted);
      var resumed := ResumePublication(ToOpen(key), newVersion, accepted);
      if resumed.FinishFailed? || resumed.FinishAlerted? {
        return if resumed.FinishFailed? then Failed else Alerted;
      }
      assert whole == Rest(Opening(key), newVersion, accepted);
      var edition := games.Open(user, key, newVersion);
      if edition.BrokenRequest? {
        assert whole == Rest(Done(Alerted), newVersion, accepted);
        return Alerted;
      }
      if !edition.Opened? {
        assert whole == Rest(Done(OpeningAnswered(edition)), newVersion, accepted);
        return OpeningAnswered(edition);
      }
      assert whole == Rest(CreatingDraft(edition.version, Some(edition.base), None), newVersion, accepted);
      var failed, revision := CreateDraft(edition.version, Some(edition.base), None, newVersion, accepted);
      return if failed.Some? then failed.value else DraftEnsured(edition.version, revision);
    }

    method EditVersion(accepted: bool, ghost newVersion: Uuid) returns (answer: Answer)
      modifies games, versions
      ensures (games.game, versions.play, answer) == old(Rest(Resuming(ToEdit), newVersion, accepted))
    {
      ghost var whole := Rest(Resuming(ToEdit), newVersion, accepted);
      var resumed := ResumePublication(ToEdit, newVersion, accepted);
      if resumed.FinishFailed? || resumed.FinishAlerted? {
        return if resumed.FinishFailed? then Failed else Alerted;
      }
      assert whole == Rest(FindingEditable(ToEdit), newVersion, accepted);
      var editable := FindEditableVersion(games.game, user);
      if !editable.EditableFound? {
        assert whole == Rest(Done(EditableRefused(editable)), newVersion, accepted);
        return EditableRefused(editable);
      }
      ghost var again := EditingDraft(editable.version, editable.base, true);
      assert whole == Rest(EditingDraft(editable.version, editable.base, false), newVersion, accepted);
      var edited := versions.Edit(editable.version, accepted);
      if edited.EditMissing? {
        assert whole == Rest(CreatingDraft(editable.version, editable.base, Some(again)), newVersion, accepted);
        var failed, revision := CreateDraft(editable.version, editable.base, Some(again), newVersion, accepted);
        if failed.Some? {
          return failed.value;
        }
        assert whole == Rest(again, newVersion, accepted);
        edited := versions.Edit(editable.version, accepted);
        if edited.EditMissing? {
          assert whole == Rest(Done(Failed), newVersion, accepted);
          return Failed;
        }
      }
      assert whole == Rest(Done(EditAnswered(edited)), newVersion, accepted);
      return EditAnswered(edited);
    }

    method EnsureDraft(ghost newVersion: Uuid, ghost accepted: bool) returns (answer: Answer)
      modifies versions
      ensures (games.game, versions.play, answer) == old(Rest(Ensuring, newVersion, accepted))
    {
      ghost var whole := Rest(Ensuring, newVersion, accepted);
      var editable := FindEditableVersion(games.game, user);
      if !editable.EditableFound? {
        assert whole == Rest(Done(EditableRefused(editable)), newVersion, accepted);
        return EditableRefused(editable);
      }
      var failed, revision := CreateDraft(editable.version, editable.base, None, newVersion, accepted);
      return if failed.Some? then failed.value else DraftEnsured(editable.version, revision);
    }
  }

  // --- A call run alone keeps the stores in agreement, whatever it starts from ---

  /** Alone, the version a call is publishing is the open edition's until it records it. */
  predicate OpenStill(g: Game, pc: Pc) {
    match pc
    case Checking(version, _, _, _, _) => IsOpen(g, version)
    case Beginning(version, _, _, _) => IsOpen(g, version)
    case CreatingDraft(_, _, back) =>
      back.Some? && back.value.Checking? ==> IsOpen(g, back.value.version)
    case _ => true
  }

  predicate IsOpen(g: Game, version: Uuid) {
    LatestEdition(g.editions, Editing).Some? && g.editions[LatestEdition(g.editions, Editing).value].version == version
  }

  lemma {:induction false} AloneKeeps(g: Game, p: Play, user: string, pc: Pc, newVersion: Uuid, accepted: bool)
    requires Sound(g, p) && PcOk(g, p, pc) && Shaped(pc) && OpenStill(g, pc)
    requires !Known(g, newVersion) || Rank(pc) < 16
    ensures var (h, q, answer) := Alone(g, p, user, pc, newVersion, accepted);
            Sound(h, q) && Grows(g, p, h, q) && !answer.Alerted?
    decreases Rank(pc)
  {
    if !pc.Done? {
      ActGoesOn(g, p, user, pc, newVersion, accepted);
      var (h, q, to) := Act(g, p, user, pc, newVersion, accepted);
      AloneStep(g, p, user, pc, newVersion, accepted);
      AloneKeeps(h, q, user, to, newVersion, accepted);
      var (h', q', answer) := Alone(h, q, user, to, newVersion, accepted);
      GrowsIsTransitive(g, p, h, q, h', q');
    }
  }

  lemma AloneStep(g: Game, p: Play, user: string, pc: Pc, newVersion: Uuid, accepted: bool)
    requires Sound(g, p) && PcOk(g, p, pc) && OpenStill(g, pc) && Shaped(pc)
    requires !Known(g, newVersion) || Rank(pc) < 16
    ensures var (h, q, to) := Act(g, p, user, pc, newVersion, accepted);
            Kept(g, p, h, q, to) && OpenStill(h, to) && (!Known(h, newVersion) || Rank(to) < 16)
  {
    OpenIsUndisturbed(g, user, pc);
    ActKeeps(g, p, user, pc, newVersion, accepted);
    StaysOpen(g, p, user, pc, newVersion, accepted);
    if !pc.Opening? {
      NothingOpened(g, p, user, pc, newVersion, accepted);
    }
    if !pc.Done? {
      ActGoesOn(g, p, user, pc, newVersion, accepted);
    }
  }

  lemma OpenIsUndisturbed(g: Game, user: string, pc: Pc)
    requires OpenStill(g, pc)
    ensures Undisturbed(g, user, pc)
  {
  }

  lemma StaysOpen(g: Game, p: Play, user: string, pc: Pc, newVersion: Uuid, accepted: bool)
    requires OpenStill(g, pc) && Shaped(pc)
    ensures var (h, q, to) := Act(g, p, user, pc, newVersion, accepted); OpenStill(h, to)
  {
  }

  lemma NothingOpened(g: Game, p: Play, user: string, pc: Pc, newVersion: Uuid, accepted: bool)
    requires !pc.Opening? || user != g.owner
    ensures var h := Act(g, p, user, pc, newVersion, accepted).0; forall v :: Known(h, v) ==> Known(g, v)
  {
    var h := Act(g, p, user, pc, newVersion, accepted).0;
    assert |h.editions| == |g.editions|;
    assert forall i :: 0 <= i < |g.editions| ==> h.editions[i].version == g.editions[i].version;
    KnownStays(h, g);
  }

  // --- Recovery ---

  /** The stores after the release a crash left is finished. */
  function Resumed(g: Game, p: Play): (Game, Play) {
    match PendingRelease(g.releases)
    case None => (g, p)
    case Some(r) =>
      if g.releases[r].edition >= |g.editions| then (g, p)
      else
        var (q, frozen) := FreezeVersion(p, g.editions[g.releases[r].edition].version, g.releases[r].revision);
        (if frozen.FreezeNotReady? then AbandonPublication(g, r) else CompletePublication(g, r).0, q)
  }

  /** What resuming changes: nothing is left pending, and only the pending release ended. */
  predicate OnlyEndsPending(g: Game, h: Game) {
    && !HasPending(h) && h.owner == g.owner && h.named == g.named && h.requests == g.requests
    && |h.releases| == |g.releases| && |h.editions| == |g.editions|
    && (forall i :: 0 <= i < |g.releases| ==> ReleaseGrows(g.releases[i], h.releases[i]))
    && (forall i :: 0 <= i < |g.editions| ==> EditionGrows(g.editions[i], h.editions[i]))
  }

  /** From any stores a run can reach, resuming leaves no release being published. */
  lemma ResumeLeavesNothingPending(g: Game, p: Play, goal: Goal, newVersion: Uuid, accepted: bool)
    requires Sound(g, p)
    ensures var (h, q) := Resumed(g, p);
            && Sound(h, q) && Grows(g, p, h, q) && OnlyEndsPending(g, h)
            && (PendingRelease(g.releases).None? ==> h == g && q == p)
            && Alone(g, p, g.owner, Resuming(goal), newVersion, accepted) == Alone(h, q, g.owner, Begin(goal), newVersion, accepted)
  {
    var pending := PendingRelease(g.releases);
    if pending.Some? {
      var r := pending.value;
      FreezeKeeps(g, p, r);
      var (q, frozen) := FreezeVersion(p, VersionOf(g, r), g.releases[r].revision);
      if frozen.FreezeNotReady? {
        AbandonKeeps(g, q, r);
      } else {
        CompleteKeeps(g, q, r);
      }
      EndingClears(g, p, r);
      AloneResumes(g, p, r, goal, newVersion, accepted);
    }
  }

  lemma EndingClears(g: Game, p: Play, r: nat)
    requires Sound(g, p) && PendingRelease(g.releases) == Some(r)
    ensures OnlyEndsPending(g, Resumed(g, p).0)
  {
    FreezeKeeps(g, p, r);
    var (q, frozen) := FreezeVersion(p, VersionOf(g, r), g.releases[r].revision);
    if frozen.FreezeNotReady? {
      AbandoningClears(g, q, r);
    } else {
      CompletingClears(g, q, r);
    }
  }

  lemma AbandoningClears(g: Game, p: Play, r: nat)
    requires Sound(g, p) && r < |g.releases| && g.releases[r].end == Pending && Past(p, VersionOf(g, r), g.releases[r].revision)
    ensures OnlyEndsPending(g, AbandonPublication(g, r))
  {
    AbandonAgrees(g, p, r);
    EndsClears(g, AbandonPublication(g, r), r, Abandoned);
  }

  lemma CompletingClears(g: Game, p: Play, r: nat)
    requires Sound(g, p) && r < |g.releases| && g.releases[r].end == Pending && IsFrozen(p, VersionOf(g, r))
    ensures OnlyEndsPending(g, CompletePublication(g, r).0)
  {
    CompleteAgrees(g, p, r);
    EndsClears(g, CompletePublication(g, r).0, r, Completed);
  }

  lemma EndsClears(g: Game, h: Game, r: nat, end: ReleaseEnd)
    requires EditionsOk(g) && ReleasesOk(g) && Ends(g, h, r, end) && h.named == g.named && |h.editions| == |g.editions|
    requires forall i :: 0 <= i < |g.editions| ==> EditionGrows(g.editions[i], h.editions[i])
    ensures OnlyEndsPending(g, h)
  {
    EndedReleasesOk(g, h, r, end);
  }

  lemma AloneResumes(g: Game, p: Play, r: nat, goal: Goal, newVersion: Uuid, accepted: bool)
    requires Sound(g, p) && PendingRelease(g.releases) == Some(r)
    ensures var (h, q) := Resumed(g, p);
            Alone(g, p, g.owner, Resuming(goal), newVersion, accepted) == Alone(h, q, g.owner, Begin(goal), newVersion, accepted)
  {
    var (q, to) := ActFreezing(g, p, r, GoOn(goal));
    FreezeKeeps(g, p, r);
    assert Alone(g, p, g.owner, Resuming(goal), newVersion, accepted)
        == Alone(g, p, g.owner, Freezing(r, GoOn(goal)), newVersion, accepted)
        == Alone(g, q, g.owner, to, newVersion, accepted);
    if to.Completing? {
      CompletingGoesOn(g, q, r, goal, newVersion, accepted);
    }
  }

  lemma CompletingGoesOn(g: Game, p: Play, r: nat, goal: Goal, newVersion: Uuid, accepted: bool)
    requires Sound(g, p) && PendingRelease(g.releases) == Some(r) && IsFrozen(p, VersionOf(g, r))
    ensures Alone(g, p, g.owner, Completing(r, GoOn(goal)), newVersion, accepted)
         == Alone(CompletePublication(g, r).0, p, g.owner, Begin(goal), newVersion, accepted)
  {
    CompleteKeeps(g, p, r);
  }

  lemma {:induction false} SameKeysSameRelease(a: seq<Release>, b: seq<Release>, key: Key)
    requires |a| == |b| && forall i :: 0 <= i < |a| ==> a[i].key == b[i].key
    ensures ReleaseByKey(a, key) == ReleaseByKey(b, key)
  {
    if a != [] {
      SameKeysSameRelease(a[..|a| - 1], b[..|b| - 1], key);
    }
  }

  /** Publishing again with the key of a recorded release, whatever its visibility, ends
      that release if it was left pending, answers it as it ended, and records no other. */
  lemma RetryAnswersTheRecordedRelease(g: Game, p: Play, visibility: Visibility, key: Key, newVersion: Uuid, accepted: bool)
    requires Sound(g, p) && ReleaseByKey(g.releases, key).Some?
    ensures var (h, q, answer) := Alone(g, p, g.owner, Resuming(ToPublish(visibility, key)), newVersion, accepted);
            var r := ReleaseByKey(g.releases, key).value;
            && !HasPending(h) && |h.releases| == |g.releases|
            && h.releases[r].end != Pending
            && answer == (if h.releases[r].end == Completed then PublishedRelease(r) else NotPublishedRelease(r))
            && (answer.PublishedRelease? <==> FrozenAt(q, VersionOf(g, r), g.releases[r].revision))
  {
    ResumeLeavesNothingPending(g, p, ToPublish(visibility, key), newVersion, accepted);
    var (h, q) := Resumed(g, p);
    var r := ReleaseByKey(g.releases, key).value;
    SameKeysSameRelease(g.releases, h.releases, key);
    assert h.releases[r].end != Pending;
    EndedReleaseAnswered(h, q, visibility, key, newVersion, accepted);
    ReleaseStays(g, p, h, q, r);
  }

  lemma EndedReleaseAnswered(g: Game, p: Play, visibility: Visibility, key: Key, newVersion: Uuid, accepted: bool)
    requires Sound(g, p) && ReleaseByKey(g.releases, key).Some?
    requires g.releases[ReleaseByKey(g.releases, key).value].end != Pending
    ensures var r := ReleaseByKey(g.releases, key).value;
            var answer := if g.releases[r].end == Completed then PublishedRelease(r) else NotPublishedRelease(r);
            && Alone(g, p, g.owner, FindingByKey(visibility, key), newVersion, accepted) == (g, p, answer)
            && (answer.PublishedRelease? <==> FrozenAt(p, VersionOf(g, r), g.releases[r].revision))
  {
    var r := ReleaseByKey(g.releases, key).value;
    assert ReleaseMatchesPlay(g, p, r);
    var answer := if g.releases[r].end == Completed then PublishedRelease(r) else NotPublishedRelease(r);
    assert Alone(g, p, g.owner, Done(answer), newVersion, accepted) == (g, p, answer);
  }

  /** The DRAFT of the open edition, once nothing is left pending. */
  predicate OpenDraft(g: Game, p: Play, version: Uuid) {
    IsOpen(g, version) && version in p.versions && p.versions[version].Draft?
  }

  /** A ready DRAFT is published at its current revision: its release completed, its
      edition published, its version frozen there and the game's current one. */
  lemma ReadyDraftIsPublished(g: Game, p: Play, version: Uuid, visibility: Visibility, key: Key, newVersion: Uuid, accepted: bool)
    requires Sound(g, p) && !HasPending(g) && g.named && ReleaseByKey(g.releases, key).None?
    requires OpenDraft(g, p, version) && p.versions[version].revision in p.versions[version].ready
    ensures var (h, q, answer) := Alone(g, p, g.owner, Resuming(ToPublish(visibility, key)), newVersion, accepted);
            var edition, revision := |g.editions| - 1, p.versions[version].revision;
            && answer == PublishedRelease(|g.releases|)
            && h.releases == g.releases + [Release(edition, revision, visibility, key, Completed)]
            && h.editions == g.editions[edition := Edition(version, Published)]
            && h.published && h.visibility == visibility
            && q == Play(p.versions[version := Executable(revision)], Some(version))
  {
    var edition, revision := |g.editions| - 1, p.versions[version].revision;
    ReadyAlone(g, p, version, visibility, key, newVersion, accepted);
    RecordedThenCompleted(g, edition, Release(edition, revision, visibility, key, Pending));
  }

  lemma ReadyAlone(g: Game, p: Play, version: Uuid, visibility: Visibility, key: Key, newVersion: Uuid, accepted: bool)
    requires Sound(g, p) && !HasPending(g) && g.named && ReleaseByKey(g.releases, key).None?
    requires OpenDraft(g, p, version) && p.versions[version].revision in p.versions[version].ready
    ensures LatestEdition(g.editions, Editing) == Some(|g.editions| - 1)
    ensures Alone(g, p, g.owner, Resuming(ToPublish(visibility, key)), newVersion, accepted)
         == Alone(g, p, g.owner, Beginning(version, p.versions[version].revision, visibility, key), newVersion, accepted)
    ensures Alone(g, p, g.owner, Beginning(version, p.versions[version].revision, visibility, key), newVersion, accepted)
         == (CompletePublication(g.(releases := g.releases + [Release(|g.editions| - 1, p.versions[version].revision, visibility, key, Pending)]),
                                 |g.releases|).0,
             Play(p.versions[version := Executable(p.versions[version].revision)], Some(version)), PublishedRelease(|g.releases|))
  {
    ResumeLeavesNothingPending(g, p, ToPublish(visibility, key), newVersion, accepted);
    assert PendingRelease(g.releases).None?;
    CheckedAlone(g, p, version, visibility, key, newVersion, accepted);
    RecordedIsPublished(g, p, version, visibility, key, newVersion, accepted);
  }

  lemma RecordedThenCompleted(g: Game, edition: nat, made: Release)
    requires edition < |g.editions| && g.editions[edition].status == Editing && made.edition == edition && made.end == Pending
    ensures var h := CompletePublication(g.(releases := g.releases + [made]), |g.releases|).0;
            && h.releases == g.releases + [made.(end := Completed)]
            && h.editions == g.editions[edition := g.editions[edition].(status := Published)]
            && h.published && h.visibility == made.visibility
  {
    assert (g.releases + [made])[|g.releases| := made.(end := Completed)] == g.releases + [made.(end := Completed)];
  }

  lemma CheckedAlone(g: Game, p: Play, version: Uuid, visibility: Visibility, key: Key, newVersion: Uuid, accepted: bool)
    requires ReleaseByKey(g.releases, key).None?
    requires OpenDraft(g, p, version) && p.versions[version].revision in p.versions[version].ready
    ensures Alone(g, p, g.owner, FindingByKey(visibility, key), newVersion, accepted)
         == Alone(g, p, g.owner, Beginning(version, p.versions[version].revision, visibility, key), newVersion, accepted)
  {
    var base := FindEditableVersion(g, g.owner).base;
    assert Alone(g, p, g.owner, FindingByKey(visibility, key), newVersion, accepted)
        == Alone(g, p, g.owner, FindingEditable(ToPublish(visibility, key)), newVersion, accepted)
        == Alone(g, p, g.owner, Checking(version, base, visibility, key, false), newVersion, accepted);
  }

  lemma RecordedIsPublished(g: Game, p: Play, version: Uuid, visibility: Visibility, key: Key, newVersion: Uuid, accepted: bool)
    requires Sound(g, p) && PendingRelease(g.releases).None? && g.named && ReleaseByKey(g.releases, key).None?
    requires OpenDraft(g, p, version) && p.versions[version].revision in p.versions[version].ready
    ensures var revision := p.versions[version].revision;
            var edition := |g.editions| - 1;
            var released := g.(releases := g.releases + [Release(edition, revision, visibility, key, Pending)]);
            Alone(g, p, g.owner, Beginning(version, revision, visibility, key), newVersion, accepted)
            == (CompletePublication(released, |g.releases|).0, Play(p.versions[version := Executable(revision)], Some(version)),
                PublishedRelease(|g.releases|))
  {
    var edition, revision, r := |g.editions| - 1, p.versions[version].revision, |g.releases|;
    assert LatestEdition(g.editions, Editing) == Some(edition);
    var released := g.(releases := g.releases + [Release(edition, revision, visibility, key, Pending)]);
    var q := Play(p.versions[version := Executable(revision)], Some(version));
    assert Alone(g, p, g.owner, Beginning(version, revision, visibility, key), newVersion, accepted)
        == Alone(released, p, g.owner, Freezing(r, AnswerOwn), newVersion, accepted);
    assert ActFreezing(released, p, r, AnswerOwn) == (q, Completing(r, AnswerOwn));
    assert Alone(released, p, g.owner, Freezing(r, AnswerOwn), newVersion, accepted)
        == Alone(released, q, g.owner, Completing(r, AnswerOwn), newVersion, accepted);
    var done := CompletePublication(released, r).0;
    assert Alone(released, q, g.owner, Completing(r, AnswerOwn), newVersion, accepted)
        == Alone(done, q, g.owner, Done(PublishedRelease(r)), newVersion, accepted);
  }

  lemma OpenVersionIsNotFrozen(g: Game, p: Play, version: Uuid)
    requires Sound(g, p) && !HasPending(g) && IsOpen(g, version)
    ensures version in p.versions ==> p.versions[version].Draft?
  {
    assert PendingRelease(g.releases).None?;
    OpenVersionIsDraft(g, p, version);
  }

  lemma MissingDraftIsCreated(g: Game, p: Play, version: Uuid, base: Option<Uuid>)
    requires Sound(g, p) && Known(g, version) && version !in p.versions && CanStartFrom(p, base)
    ensures CreateDraftVersion(p, version, base) == (p.(versions := p.versions[version := Draft(1, {})]), DraftCreated)
  {
    CreateDraftKeeps(g, p, version, base);
  }

  lemma EditAlone(g: Game, p: Play, version: Uuid, base: Option<Uuid>, repaired: bool, newVersion: Uuid, accepted: bool)
    requires version in p.versions && p.versions[version].Draft?
    ensures var (q, edit) := EditDraft(p, version, accepted);
            && Alone(g, p, g.owner, EditingDraft(version, base, repaired), newVersion, accepted) == (g, q, EditAnswered(edit))
            && edit == (if accepted then EditApplied(q.versions[version].revision) else EditRefused(q.versions[version].revision))
            && q.versions[version].Draft?
  {
    var (q, edit) := EditDraft(p, version, accepted);
    assert Alone(g, p, g.owner, EditingDraft(version, base, repaired), newVersion, accepted)
        == Alone(g, q, g.owner, Done(EditAnswered(edit)), newVersion, accepted);
  }

  /** A retry under key still finds its edition open once it has ended what is pending:
      open now, with no release being published that Play can still freeze. */
  predicate StillOpens(g: Game, p: Play, key: Key)
    requires EditionsOk(g) && ReleasesOk(g) && key in g.requests
  {
    && g.editions[g.requests[key]].status == Editing
    && (PendingRelease(g.releases).Some? ==>
          var r := PendingRelease(g.releases).value; Past(p, VersionOf(g, r), g.releases[r].revision))
  }

  lemma ResumedEdition(g: Game, p: Play, key: Key)
    requires Sound(g, p) && key in g.requests
    ensures |Resumed(g, p).0.editions| == |g.editions|
    ensures Resumed(g, p).0.editions[g.requests[key]].status == Editing <==> StillOpens(g, p, key)
    ensures Resumed(g, p).0.editions[g.requests[key]].version == g.editions[g.requests[key]].version
  {
    var pending := PendingRelease(g.releases);
    if pending.Some? {
      assert ReleaseMatchesPlay(g, p, pending.value);
    }
  }

  /** A retry of OpenEdition resumes where it stopped, with the version its request named,
      if and only if that edition is open and no release is being published of it that Play
      can freeze: such a release the retry itself publishes first, and then it fails. */
  lemma OpenRetryResumesIff(g: Game, p: Play, key: Key, newVersion: Uuid, accepted: bool)
    requires Sound(g, p) && key in g.requests
    ensures var (h, q, answer) := Alone(g, p, g.owner, Resuming(ToOpen(key)), newVersion, accepted);
            var version := g.editions[g.requests[key]].version;
            && h.requests == g.requests && |h.editions| == |g.editions|
            && if StillOpens(g, p, key) then OpenDraft(h, q, version) && answer == DraftEnsured(version, q.versions[version].revision)
               else answer == Failed
  {
    ResumeLeavesNothingPending(g, p, ToOpen(key), newVersion, accepted);
    ResumedEdition(g, p, key);
    var (h, q) := Resumed(g, p);
    RetryWithNothingPending(h, q, key, newVersion, accepted);
  }

  /** Once nothing is pending: whether the edition is open decides. */
  lemma RetryWithNothingPending(g: Game, p: Play, key: Key, newVersion: Uuid, accepted: bool)
    requires Sound(g, p) && !HasPending(g) && key in g.requests
    ensures var (h, q, answer) := Alone(g, p, g.owner, Opening(key), newVersion, accepted);
            var edition := g.editions[g.requests[key]];
            && h == g
            && (edition.status == Editing ==>
                  OpenDraft(h, q, edition.version) && answer == DraftEnsured(edition.version, q.versions[edition.version].revision))
            && (edition.status == Published ==> answer == Failed)
  {
    var edition := g.editions[g.requests[key]];
    assert g.editions[0].status == Published;
    var base := Some(g.editions[LatestEdition(g.editions, Published).value].version);
    assert Known(g, edition.version);
    assert Alone(g, p, g.owner, Opening(key), newVersion, accepted)
        == Alone(g, p, g.owner, CreatingDraft(edition.version, base, None), newVersion, accepted);
    var (q, to) := ActCreating(p, edition.version, base, None);
    assert Alone(g, p, g.owner, CreatingDraft(edition.version, base, None), newVersion, accepted)
        == Alone(g, q, g.owner, to, newVersion, accepted);
    if edition.status == Editing {
      assert IsOpen(g, edition.version);
      OpenVersionIsNotFrozen(g, p, edition.version);
      if edition.version !in p.versions {
        MissingDraftIsCreated(g, p, edition.version, base);
      }
    } else {
      assert IsFrozen(p, edition.version);
    }
  }

  /** A replayed opening answers what it first did, the edition and the one before it as its
      base, if and only if that edition is still open. */
  lemma ReplayAnswersTheSameIffOpen(g: Game, p: Play, key: Key, newVersion: Uuid)
    requires Sound(g, p) && key in g.requests
    ensures var e := g.requests[key];
            0 < e < |g.editions|
            && (OpenEdition(g, g.owner, key, newVersion) == (g, Opened(g.editions[e].version, g.editions[e - 1].version))
                <==> g.editions[e].status == Editing)
  {
    var e := g.requests[key];
    assert g.editions[0].status == Published;
    var base := LatestEdition(g.editions, Published).value;
    if g.editions[e].status == Editing {
      assert g.editions[e - 1].status == Published;
      assert e == |g.editions| - 1 && base == e - 1;
    } else {
      assert base >= e && g.editions[base].version != g.editions[e - 1].version;
    }
  }

  // --- The draft of a created game ---

  /** CreateGame's second step, retried at any time with the game's first edition, answers
      that edition's draft if and only if its version has not been frozen. */
  lemma FirstDraftRetryIff(g: Game, p: Play, newVersion: Uuid, accepted: bool)
    requires Sound(g, p)
    ensures var (h, q, answer) := Alone(g, p, g.owner, CreatingDraft(g.editions[0].version, None, None), newVersion, accepted);
            var version := g.editions[0].version;
            if !IsFrozen(p, version) then
              version in q.versions && q.versions[version].Draft? && answer == DraftEnsured(version, q.versions[version].revision)
            else answer == Failed && h == g && q == p
  {
    var version := g.editions[0].version;
    assert Known(g, version);
    if version !in p.versions {
      FirstIsCreated(g, p);
    }
    var (q, to) := ActCreating(p, version, None, None);
    assert Alone(g, p, g.owner, CreatingDraft(version, None, None), newVersion, accepted)
        == Alone(g, q, g.owner, to, newVersion, accepted);
  }

  lemma FirstIsCreated(g: Game, p: Play)
    requires Sound(g, p) && g.editions[0].version !in p.versions
    ensures CreateDraftVersion(p, g.editions[0].version, None)
         == (p.(versions := p.versions[g.editions[0].version := Draft(1, {})]), DraftCreated)
  {
    assert Known(g, g.editions[0].version);
    MissingDraftIsCreated(g, p, g.editions[0].version, None);
  }
}
