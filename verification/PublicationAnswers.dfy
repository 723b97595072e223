/** What each call of the orchestrator answers, and does to the two stores, from any stores
    that calls can leave behind (orchestrator/gameauthoring). */
module PublicationAnswers {
  import opened Options
  import opened GameLifecycle
  import opened PlayVersions
  import opened Publication
  import opened PublicationRecovery

  function OpenVersion(g: Game): Option<Uuid> {
    match LatestEdition(g.editions, Editing)
    case None => None
    case Some(open) => Some(g.editions[open].version)
  }

  function WithDraft(p: Play, version: Uuid, draft: Version): Play { p.(versions := p.versions[version := draft]) }

  // --- Recording a release once per key ---

  /** However much later, beginning again under the key of a recorded release records
      nothing: with another visibility it conflicts, and otherwise it answers that release
      as it stands by then. */
  lemma BegunOnce(g: Game, revision: nat, visibility: Visibility, key: Key, h: Game, again: nat, other: Visibility)
    requires BeginPublication(g, g.owner, revision, visibility, key).1.Started?
    requires h.owner == g.owner && ReleasesOk(h)
    requires var begun := BeginPublication(g, g.owner, revision, visibility, key).0;
             |begun.releases| <= |h.releases|
             && forall i :: 0 <= i < |begun.releases| ==> ReleaseGrows(begun.releases[i], h.releases[i])
    ensures var r := BeginPublication(g, g.owner, revision, visibility, key).1.release;
            && r < |h.releases|
            && BeginPublication(h, g.owner, again, other, key)
               == (h, if other != visibility then KeyConflict
                      else match h.releases[r].end
                           case Pending => Started(r)
                           case Completed => EndedCompleted(r)
                           case Abandoned => EndedAbandoned(r))
  {
    var (begun, answer) := BeginPublication(g, g.owner, revision, visibility, key);
    var r := answer.release;
    assert begun.releases[r].key == key && begun.releases[r].visibility == visibility;
    assert ReleaseGrows(begun.releases[r], h.releases[r]);
    assert ReleaseByKey(h.releases, key) == Some(r);
  }

  /** Finishing a pending release alone ends it as resuming would, and answers how it ended. */
  lemma FinishAlone(g: Game, p: Play, r: nat, next: Then, newVersion: Uuid, accepted: bool)
    requires Sound(g, p) && PendingRelease(g.releases) == Some(r) && !next.GoOn?
    ensures var (h, q) := Resumed(g, p);
            && OnlyEndsPending(g, h) && h.releases[r].end != Pending
            && Alone(g, p, g.owner, Freezing(r, next), newVersion, accepted)
               == (h, q, if h.releases[r].end == Completed then AfterCompleting(r, next).answer else AfterAbandoning(r, next).answer)
  {
    EndingClears(g, p, r);
    FreezeKeeps(g, p, r);
    var (q, to) := ActFreezing(g, p, r, next);
    assert Alone(g, p, g.owner, Freezing(r, next), newVersion, accepted) == Alone(g, q, g.owner, to, newVersion, accepted);
    if to.Completing? {
      CompletedAlone(g, q, r, next, newVersion, accepted);
    } else {
      AbandonedAlone(g, q, r, next, newVersion, accepted);
    }
  }

  lemma CompletedAlone(g: Game, p: Play, r: nat, next: Then, newVersion: Uuid, accepted: bool)
    requires Sound(g, p) && r < |g.releases| && g.releases[r].end == Pending && IsFrozen(p, VersionOf(g, r)) && !next.GoOn?
    ensures var h := CompletePublication(g, r).0;
            && r < |h.releases| && h.releases[r].end == Completed
            && Alone(g, p, g.owner, Completing(r, next), newVersion, accepted) == (h, p, AfterCompleting(r, next).answer)
  {
    CompleteAgrees(g, p, r);
    var h := CompletePublication(g, r).0;
    assert Alone(g, p, g.owner, Completing(r, next), newVersion, accepted)
        == Alone(h, p, g.owner, AfterCompleting(r, next), newVersion, accepted);
  }

  lemma AbandonedAlone(g: Game, p: Play, r: nat, next: Then, newVersion: Uuid, accepted: bool)
    requires r < |g.releases| && g.releases[r].end == Pending && !next.GoOn?
    ensures var h := AbandonPublication(g, r);
            && h.releases[r].end == Abandoned
            && Alone(g, p, g.owner, Abandoning(r, next), newVersion, accepted) == (h, p, AfterAbandoning(r, next).answer)
  {
    var h := AbandonPublication(g, r);
    assert Alone(g, p, g.owner, Abandoning(r, next), newVersion, accepted)
        == Alone(h, p, g.owner, AfterAbandoning(r, next), newVersion, accepted);
  }

  /** A call that begins a release another one recorded under its key meanwhile ends that
      release if it is pending and answers it as it ended, as a retry would; with another
      visibility it conflicts. */
  lemma BeginningAnswersTheRecorded(g: Game, p: Play, pc: Pc, newVersion: Uuid, accepted: bool)
    requires Sound(g, p) && pc.Beginning? && ReleaseByKey(g.releases, pc.key).Some?
    ensures var r := ReleaseByKey(g.releases, pc.key).value;
            var (h, q, answer) := Alone(g, p, g.owner, pc, newVersion, accepted);
            if g.releases[r].visibility != pc.visibility then (h, q, answer) == (g, p, PublicationRefused(KeyConflict))
            else
              && |h.releases| == |g.releases| && h.releases[r].end != Pending
              && answer == if h.releases[r].end == Completed then PublishedRelease(r) else NotPublishedRelease(r)
  {
    var r := ReleaseByKey(g.releases, pc.key).value;
    var to := ActBeginning(g, g.owner, pc).1;
    assert Alone(g, p, g.owner, pc, newVersion, accepted) == Alone(g, p, g.owner, to, newVersion, accepted);
    if g.releases[r].visibility == pc.visibility && g.releases[r].end == Pending {
      assert PendingRelease(g.releases) == Some(r);
      FinishAlone(g, p, r, AnswerOwn, newVersion, accepted);
    }
  }

  // --- Publish ---

  /** Publish under a new key, with nothing left being published: refused when no edition is
      open, its draft is missing, which is then made, or not ready, or the card has no name;
      otherwise it is published. */
  lemma PublishWithNothingPending(g: Game, p: Play, visibility: Visibility, key: Key, newVersion: Uuid, accepted: bool)
    requires Sound(g, p) && !HasPending(g) && ReleaseByKey(g.releases, key).None?
    ensures PublishAnswersFor(g, p, visibility, key, Alone(g, p, g.owner, FindingByKey(visibility, key), newVersion, accepted))
  {
    assert PendingRelease(g.releases).None?;
    assert Alone(g, p, g.owner, FindingByKey(visibility, key), newVersion, accepted)
        == Alone(g, p, g.owner, FindingEditable(ToPublish(visibility, key)), newVersion, accepted);
    var open := OpenVersion(g);
    if open.None? {
      assert Alone(g, p, g.owner, FindingEditable(ToPublish(visibility, key)), newVersion, accepted)
          == Alone(g, p, g.owner, Done(EditableRefused(EditableNotEditable)), newVersion, accepted);
    } else {
      CheckedWithNothingPending(g, p, open.value, visibility, key, newVersion, accepted);
    }
  }

  ghost predicate PublishAnswersFor(g: Game, p: Play, visibility: Visibility, key: Key, r: (Game, Play, Answer)) {
    var open := OpenVersion(g);
    if open.None? then r == (g, p, EditableRefused(EditableNotEditable))
    else
      var v := open.value;
      if v !in p.versions then r == (g, WithDraft(p, v, Draft(1, {})), VersionNotReady)
      else if p.versions[v].Executable? || p.versions[v].revision !in p.versions[v].ready then r == (g, p, VersionNotReady)
      else if !g.named then r == (g, p, PublicationRefused(NotReady))
      else
        && r.2 == PublishedRelease(|g.releases|)
        && r.0 == g.(editions := g.editions[|g.editions| - 1 := Edition(v, Published)], published := true, visibility := visibility,
                     releases := g.releases + [Release(|g.editions| - 1, p.versions[v].revision, visibility, key, Completed)])
        && r.1 == Play(p.versions[v := Executable(p.versions[v].revision)], Some(v))
  }

  lemma CheckedWithNothingPending(g: Game, p: Play, v: Uuid, visibility: Visibility, key: Key, newVersion: Uuid, accepted: bool)
    requires Sound(g, p) && !HasPending(g) && ReleaseByKey(g.releases, key).None? && OpenVersion(g) == Some(v)
    ensures PublishAnswersFor(g, p, visibility, key, Alone(g, p, g.owner, FindingEditable(ToPublish(visibility, key)), newVersion, accepted))
  {
    var base := FindEditableVersion(g, g.owner).base;
    var checking := Checking(v, base, visibility, key, false);
    assert Alone(g, p, g.owner, FindingEditable(ToPublish(visibility, key)), newVersion, accepted)
        == Alone(g, p, g.owner, checking, newVersion, accepted);
    OpenVersionIsNotFrozen(g, p, v);
    if v !in p.versions {
      MissingIsNotReady(g, p, v, base, visibility, key, newVersion, accepted);
    } else if p.versions[v].revision !in p.versions[v].ready {
      assert Alone(g, p, g.owner, checking, newVersion, accepted) == Alone(g, p, g.owner, Done(VersionNotReady), newVersion, accepted);
    } else {
      var beginning := Beginning(v, p.versions[v].revision, visibility, key);
      assert Alone(g, p, g.owner, checking, newVersion, accepted) == Alone(g, p, g.owner, beginning, newVersion, accepted);
      if g.named {
        ReadyAlone(g, p, v, visibility, key, newVersion, accepted);
        RecordedThenCompleted(g, |g.editions| - 1, Release(|g.editions| - 1, p.versions[v].revision, visibility, key, Pending));
      } else {
        assert PendingRelease(g.releases).None?;
        assert Alone(g, p, g.owner, beginning, newVersion, accepted)
            == Alone(g, p, g.owner, Done(PublicationRefused(NotReady)), newVersion, accepted);
      }
    }
  }

  lemma MissingIsNotReady(g: Game, p: Play, v: Uuid, base: Option<Uuid>, visibility: Visibility, key: Key, newVersion: Uuid, accepted: bool)
    requires Sound(g, p) && Known(g, v) && v !in p.versions && CanStartFrom(p, base)
    ensures Alone(g, p, g.owner, Checking(v, base, visibility, key, false), newVersion, accepted)
         == (g, WithDraft(p, v, Draft(1, {})), VersionNotReady)
  {
    MissingDraftIsCreated(g, p, v, base);
    var q, again := WithDraft(p, v, Draft(1, {})), Checking(v, base, visibility, key, true);
    assert Alone(g, p, g.owner, Checking(v, base, visibility, key, false), newVersion, accepted)
        == Alone(g, p, g.owner, CreatingDraft(v, base, Some(again)), newVersion, accepted)
        == Alone(g, q, g.owner, again, newVersion, accepted)
        == Alone(g, q, g.owner, Done(VersionNotReady), newVersion, accepted);
  }

  /** Publish under a new key, from any stores calls can leave behind: once what was left
      being published is ended, its answer and both stores are exactly these. */
  lemma PublishAnswersExactly(g: Game, p: Play, visibility: Visibility, key: Key, newVersion: Uuid, accepted: bool)
    requires Sound(g, p) && ReleaseByKey(g.releases, key).None?
    ensures var (h, q) := Resumed(g, p);
            && OnlyEndsPending(g, h)
            && PublishAnswersFor(h, q, visibility, key, Alone(g, p, g.owner, Resuming(ToPublish(visibility, key)), newVersion, accepted))
  {
    ResumeLeavesNothingPending(g, p, ToPublish(visibility, key), newVersion, accepted);
    var (h, q) := Resumed(g, p);
    SameKeysSameRelease(g.releases, h.releases, key);
    PublishWithNothingPending(h, q, visibility, key, newVersion, accepted);
  }

  /** A version frozen since the call found it is refused as no longer editable. */
  lemma FrozenMeanwhileIsRefused(g: Game, p: Play, user: string, pc: Pc, newVersion: Uuid, accepted: bool)
    requires pc.Checking? && IsFrozen(p, pc.version)
    ensures Alone(g, p, user, pc, newVersion, accepted) == (g, p, PublicationRefused(NotEditable))
  {
    assert Alone(g, p, user, pc, newVersion, accepted) == Alone(g, p, user, Done(PublicationRefused(NotEditable)), newVersion, accepted);
  }

  // --- OpenEdition ---

  ghost predicate OpenAnswersFor(g: Game, p: Play, key: Key, newVersion: Uuid, r: (Game, Play, Answer)) {
    if forall i :: 0 <= i < |g.editions| ==> g.editions[i].status != Published then r == (g, p, OpeningAnswered(NotPublished))
    else if OpenVersion(g).Some? then r == (g, p, OpeningAnswered(AlreadyOpen(OpenVersion(g).value)))
    else
      && r.2 == DraftEnsured(newVersion, 1)
      && r.0 == g.(editions := g.editions + [Edition(newVersion, Editing)], requests := g.requests[key := |g.editions|])
      && r.1 == WithDraft(p, newVersion, Draft(1, {}))
  }

  /** Opening an edition under a new key, once nothing is being published: refused while
      nothing was published yet or an edition is open, which is named; otherwise the edition
      is added and its draft made. */
  lemma OpenWithNothingPending(g: Game, p: Play, key: Key, newVersion: Uuid, accepted: bool)
    requires Sound(g, p) && !HasPending(g) && key !in g.requests && !Known(g, newVersion)
    ensures OpenAnswersFor(g, p, key, newVersion, Alone(g, p, g.owner, Opening(key), newVersion, accepted))
  {
    assert PendingRelease(g.releases).None?;
    if LatestEdition(g.editions, Published).Some? && OpenVersion(g).None? {
      NextIsOpened(g, p, key, newVersion, accepted);
    } else {
      assert g.published ==> LatestEdition(g.editions, Published).Some?;
      OpenIsRefused(g, p, key, newVersion, accepted);
    }
  }

  lemma OpenIsRefused(g: Game, p: Play, key: Key, newVersion: Uuid, accepted: bool)
    requires Sound(g, p) && key !in g.requests
    requires LatestEdition(g.editions, Published).None? || OpenVersion(g).Some?
    ensures OpenAnswersFor(g, p, key, newVersion, Alone(g, p, g.owner, Opening(key), newVersion, accepted))
  {
    assert LatestEdition(g.editions, Published).Some? ==> g.published;
    assert Alone(g, p, g.owner, Opening(key), newVersion, accepted)
        == Alone(g, p, g.owner, Done(OpeningAnswered(OpenEdition(g, g.owner, key, newVersion).1)), newVersion, accepted);
  }

  lemma NextIsOpened(g: Game, p: Play, key: Key, newVersion: Uuid, accepted: bool)
    requires Sound(g, p) && PendingRelease(g.releases).None? && key !in g.requests && !Known(g, newVersion)
    requires LatestEdition(g.editions, Published).Some? && OpenVersion(g).None?
    ensures OpenAnswersFor(g, p, key, newVersion, Alone(g, p, g.owner, Opening(key), newVersion, accepted))
  {
    var base := g.editions[LatestEdition(g.editions, Published).value].version;
    var h := g.(editions := g.editions + [Edition(newVersion, Editing)], requests := g.requests[key := |g.editions|]);
    assert OpenEdition(g, g.owner, key, newVersion) == (h, Opened(newVersion, base));
    OpenKeeps(g, p, g.owner, key, newVersion);
    assert newVersion !in p.versions;
    MissingDraftIsCreated(h, p, newVersion, Some(base));
    NextIsDrafted(h, p, g.owner, newVersion, base, accepted);
    assert Alone(g, p, g.owner, Opening(key), newVersion, accepted)
        == Alone(h, p, g.owner, CreatingDraft(newVersion, Some(base), None), newVersion, accepted);
  }

  lemma NextIsDrafted(h: Game, p: Play, user: string, version: Uuid, base: Uuid, accepted: bool)
    requires CreateDraftVersion(p, version, Some(base)) == (WithDraft(p, version, Draft(1, {})), DraftCreated)
    ensures Alone(h, p, user, CreatingDraft(version, Some(base), None), version, accepted)
         == (h, WithDraft(p, version, Draft(1, {})), DraftEnsured(version, 1))
  {
    var q := WithDraft(p, version, Draft(1, {}));
    assert Alone(h, p, user, CreatingDraft(version, Some(base), None), version, accepted)
        == Alone(h, q, user, Done(DraftEnsured(version, 1)), version, accepted);
  }

  /** So from any stores calls can leave behind, once what was left being published is ended. */
  lemma OpenAnswersExactly(g: Game, p: Play, key: Key, newVersion: Uuid, accepted: bool)
    requires Sound(g, p) && key !in g.requests && !Known(g, newVersion)
    ensures var (h, q) := Resumed(g, p);
            && OnlyEndsPending(g, h)
            && OpenAnswersFor(h, q, key, newVersion, Alone(g, p, g.owner, Resuming(ToOpen(key)), newVersion, accepted))
  {
    ResumeLeavesNothingPending(g, p, ToOpen(key), newVersion, accepted);
    var (h, q) := Resumed(g, p);
    KnownStays(h, g);
    OpenWithNothingPending(h, q, key, newVersion, accepted);
  }

  // --- Editing, and ensuring the draft ---

  /** The draft an edit is over: the open edition's, made anew when a crash left it missing. */
  function DraftOf(p: Play, v: Uuid): Version { if v in p.versions then p.versions[v] else Draft(1, {}) }

  ghost predicate EditAnswersFor(g: Game, p: Play, accepted: bool, r: (Game, Play, Answer)) {
    var open := OpenVersion(g);
    if open.None? then r == (g, p, EditableRefused(EditableNotEditable))
    else
      var v, draft := open.value, DraftOf(p, open.value);
      && draft.Draft?
      && r == if accepted then (g, WithDraft(p, v, Draft(draft.revision + 1, draft.ready)), EditAnswered(EditApplied(draft.revision + 1)))
              else (g, WithDraft(p, v, draft), EditAnswered(EditRefused(draft.revision)))
  }

  lemma RedraftedOnce(p: Play, v: Uuid, draft: Version)
    ensures WithDraft(WithDraft(p, v, Draft(1, {})), v, draft) == WithDraft(p, v, draft)
  {
  }

  lemma EditWithNothingPending(g: Game, p: Play, newVersion: Uuid, accepted: bool)
    requires Sound(g, p) && !HasPending(g)
    ensures EditAnswersFor(g, p, accepted, Alone(g, p, g.owner, FindingEditable(ToEdit), newVersion, accepted))
  {
    var open := OpenVersion(g);
    if open.None? {
      assert Alone(g, p, g.owner, FindingEditable(ToEdit), newVersion, accepted)
          == Alone(g, p, g.owner, Done(EditableRefused(EditableNotEditable)), newVersion, accepted);
    } else {
      var v, base := open.value, FindEditableVersion(g, g.owner).base;
      OpenVersionIsNotFrozen(g, p, v);
      assert Alone(g, p, g.owner, FindingEditable(ToEdit), newVersion, accepted)
          == Alone(g, p, g.owner, EditingDraft(v, base, false), newVersion, accepted);
      if v in p.versions {
        EditAlone(g, p, v, base, false, newVersion, accepted);
        assert WithDraft(p, v, p.versions[v]) == p;
      } else {
        MissingDraftIsCreated(g, p, v, base);
        var q, again := WithDraft(p, v, Draft(1, {})), EditingDraft(v, base, true);
        assert Alone(g, p, g.owner, EditingDraft(v, base, false), newVersion, accepted)
            == Alone(g, p, g.owner, CreatingDraft(v, base, Some(again)), newVersion, accepted)
            == Alone(g, q, g.owner, again, newVersion, accepted);
        EditAlone(g, q, v, base, true, newVersion, accepted);
        forall draft ensures WithDraft(q, v, draft) == WithDraft(p, v, draft) { RedraftedOnce(p, v, draft); }
      }
    }
  }

  /** An edit, from any stores calls can leave behind: over the open edition's draft, whose
      next revision it makes when it applies, and nothing else of either store changes. */
  lemma EditAnswersExactly(g: Game, p: Play, newVersion: Uuid, accepted: bool)
    requires Sound(g, p)
    ensures var (h, q) := Resumed(g, p);
            OnlyEndsPending(g, h) && EditAnswersFor(h, q, accepted, Alone(g, p, g.owner, Resuming(ToEdit), newVersion, accepted))
  {
    ResumeLeavesNothingPending(g, p, ToEdit, newVersion, accepted);
    var (h, q) := Resumed(g, p);
    EditWithNothingPending(h, q, newVersion, accepted);
  }

  /** EnsureDraft, from any stores calls can leave behind: it makes the open edition's draft
      if and only if that is missing, and fails while the version is frozen. */
  lemma EnsureAnswersExactly(g: Game, p: Play, newVersion: Uuid, accepted: bool)
    requires Sound(g, p)
    ensures Alone(g, p, g.owner, Ensuring, newVersion, accepted)
         == match OpenVersion(g)
            case None => (g, p, EditableRefused(EditableNotEditable))
            case Some(v) =>
              if v !in p.versions then (g, WithDraft(p, v, Draft(1, {})), DraftEnsured(v, 1))
              else if p.versions[v].Draft? then (g, p, DraftEnsured(v, p.versions[v].revision))
              else (g, p, Failed)
  {
    var open := OpenVersion(g);
    if open.Some? {
      var v, base := open.value, FindEditableVersion(g, g.owner).base;
      assert Known(g, v);
      if v !in p.versions {
        MissingDraftIsCreated(g, p, v, base);
      }
      var (q, to) := ActCreating(p, v, base, None);
      assert Alone(g, p, g.owner, Ensuring, newVersion, accepted)
          == Alone(g, p, g.owner, CreatingDraft(v, base, None), newVersion, accepted)
          == Alone(g, q, g.owner, to, newVersion, accepted);
    } else {
      assert Alone(g, p, g.owner, Ensuring, newVersion, accepted)
          == Alone(g, p, g.owner, Done(EditableRefused(EditableNotEditable)), newVersion, accepted);
    }
  }
}
