/** A run after which retrying an opened edition fails although that edition is open when
    the retry begins (orchestrator/gameauthoring/publish.go). */
module EditionRetry {
  import opened Options
  import opened GameLifecycle
  import opened PlayVersions
  import opened Publication
  import opened PublicationRecovery
  import opened PublicationRuns
  import opened RecordedRelease
  import opened TwoEditions

  const rebuilt := FinishBuild(redrafted, 2, 1)
  const pending := BeginPublication(open, me, 1, PublicGame, "next").0

  /** The next edition's draft is built, and a publication checks it. */
  lemma NextIsChecked()
    ensures Comes(open, rebuilt, Calling(map[], 1, me, Beginning(2, 1, PublicGame, "next")))
  {
    var s := Initial(me, 1);
    FirstIsBuilt();
    FirstIsPublished(map[], 1);
    NextIsDrafted(map[], 1);
    WhatIsOpen();
    DraftIsBuilt(s, open, redrafted, map[], 2, 1);
    DraftIsChecked(s, open, rebuilt, map[], 1, 2, 1, "next");
  }

  /** It records its release and stops. */
  lemma NextIsRecorded()
    ensures Comes(pending, rebuilt, map[])
  {
    var s := Initial(me, 1);
    NextIsChecked();
    WhatIsOpen();
    Acting(s, open, rebuilt, map[], 1, me, Beginning(2, 1, PublicGame, "next"), true);
    Leaving(s, pending, rebuilt, map[], 1, me, Freezing(1, AnswerOwn));
  }

  lemma WhatIsPending()
    ensures pending.editions == open.editions && pending.requests == open.requests && pending.owner == me
    ensures PendingRelease(pending.releases) == Some(1) && pending.releases[1].edition == 1 && pending.releases[1].revision == 1
  {
    WhatIsOpen();
    assert ReleaseByKey(open.releases, "next").None?;
  }

  /** The retry of that opening fails, although its edition is open when it begins: it
      publishes the edition first. */
  lemma OpenRetryCanFail()
    ensures exists events :: Runs(Initial(me, 1), events) && RunUndisturbed(Initial(me, 1), events)
              && var s := Final(Initial(me, 1), events);
                 && opening in s.game.requests && s.game.requests[opening] < |s.game.editions|
                 && s.game.editions[s.game.requests[opening]].status == Editing
                 && Alone(s.game, s.play, me, Resuming(ToOpen(opening)), 3, false).2 == Failed
  {
    NextIsRecorded();
    WhatIsOpen();
    WhatIsPending();
    var events :| UndisturbedTo(Initial(me, 1), System(pending, rebuilt, map[]), events);
    InitialIsOk(me, 1);
    EveryRunKeepsOk(Initial(me, 1), events);
    OpenRetryResumesIff(pending, rebuilt, opening, 3, false);
    assert !Past(rebuilt, VersionOf(pending, 1), 1);
  }
}
