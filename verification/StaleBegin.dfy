/** A run of the code as it is in which a new edition is opened between one call's
    CheckPublication and its BeginPublication, which is given no version: it leaves a
    frozen version whose edition stays open with nothing pending. */
module StaleBegin {
  import opened Options
  import opened GameLifecycle
  import opened PlayVersions
  import opened Publication
  import opened PublicationRuns
  import opened RecordedRelease
  import opened TwoEditions

  const slowBegin := Beginning(1, 1, PublicGame, "slow")
  const slow := Calling(map[], 1, me, slowBegin)

  /** A slow call checks the first edition, ready at revision 1; meanwhile a quick one
      publishes it and another opens the next, whose draft is at its revision 1 too. */
  lemma SlowCallWaits()
    ensures Comes(open, redrafted, slow)
  {
    FirstIsBuilt();
    DraftIsChecked(Initial(me, 1), begun, built, map[], 1, 1, 1, "slow");
    FirstIsPublished(slow, 2);
    NextIsDrafted(slow, 2);
  }

  const stale := BeginPublication(open, me, 1, PublicGame, "slow").0
  const after := System(stale, redrafted, Calling(map[], 1, me, Freezing(1, AnswerOwn)))

  lemma WhatIsRecorded()
    ensures BeginPublication(open, me, 1, PublicGame, "slow").1 == Started(1)
    ensures stale.editions == open.editions && stale.owner == me && |stale.releases| == 2
    ensures stale.releases[1] == Release(1, 1, PublicGame, "slow", Pending) && stale.releases[0].end == Completed
    ensures PendingRelease(stale.releases) == Some(1)
  {
    WhatIsOpen();
    assert ReleaseByKey(open.releases, "slow").None?;
  }

  lemma RecordsTheNext()
    ensures Act(open, redrafted, me, slowBegin, 0, true) == (stale, redrafted, Freezing(1, AnswerOwn))
  {
    WhatIsRecorded();
  }

  /** The slow call records its release, of the new edition. */
  lemma SlowCallRecords()
    ensures Reached(Initial(me, 1), after)
  {
    SlowCallWaits();
    SlowCallActs();
    var t := System(open, redrafted, slow);
    var events :| UndisturbedTo(Initial(me, 1), t, events);
    OneMore(Initial(me, 1), t, Acts(1, 0, true));
  }

  lemma SlowCallActs()
    ensures Enabled(System(open, redrafted, slow), Acts(1, 0, true))
    ensures After(System(open, redrafted, slow), Acts(1, 0, true)) == after
  {
    RecordsTheNext();
    assert slow[1 := Call(me, Freezing(1, AnswerOwn))] == after.calls;
  }

  const refused := Calling(map[], 1, me, Abandoning(1, AnswerOwn))
  const finishing := Freezing(1, GoOn(ToEdit))
  const rebuilt := FinishBuild(redrafted, 2, 1)
  const refrozen := FreezeVersion(rebuilt, 2, 1).0

  /** Play refuses it, and before it is abandoned another call finds it pending. */
  lemma AnotherFindsIt()
    ensures Leads(after, System(stale, redrafted, Calling(refused, 2, me, finishing)))
  {
    WhatIsRecorded();
    WhatIsOpen();
    LeadsToItself(after);
    Acting(after, stale, redrafted, map[], 1, me, Freezing(1, AnswerOwn), true);
    Arriving(after, System(stale, redrafted, refused), 2, me, Resuming(ToEdit));
    Acting(after, stale, redrafted, refused, 2, me, Resuming(ToEdit), true);
  }

  /** The draft's build finishes, and that call freezes it. */
  lemma AnotherFreezes()
    ensures Leads(after, System(stale, refrozen, Calling(refused, 2, me, Completing(1, GoOn(ToEdit)))))
  {
    AnotherFindsIt();
    WhatIsRecorded();
    WhatIsOpen();
    DraftIsBuilt(after, stale, redrafted, Calling(refused, 2, me, finishing), 2, 1);
    Acting(after, stale, rebuilt, refused, 2, me, finishing, true);
  }

  const dropped := AbandonPublication(stale, 1)
  const completing := Calling(map[], 2, me, Completing(1, GoOn(ToEdit)))

  /** The slow call then abandons the release. */
  lemma SlowCallAbandons()
    ensures Leads(after, System(dropped, refrozen, Calling(completing, 1, me, Done(NotPublishedRelease(1)))))
  {
    AnotherFreezes();
    Swapped(Abandoning(1, AnswerOwn), Completing(1, GoOn(ToEdit)));
    Acting(after, stale, refrozen, completing, 1, me, Abandoning(1, AnswerOwn), true);
  }

  const answered := Calling(map[], 1, me, Done(NotPublishedRelease(1)))
  const end := System(dropped, refrozen, Calling(answered, 2, me, Done(Failed)))

  lemma CompletingAbandonedFails(g: Game, p: Play, r: nat)
    requires r < |g.releases| && g.releases[r].end == Abandoned
    ensures Act(g, p, me, Completing(r, GoOn(ToEdit)), 0, true) == (g, p, Done(Failed))
  {
  }

  lemma WhatIsDropped()
    ensures |dropped.releases| == 2 && dropped.releases[1].end == Abandoned && dropped.editions == open.editions
    ensures !HasPending(dropped)
  {
    WhatIsRecorded();
  }

  lemma Swapped(a: Pc, b: Pc)
    ensures Calling(Calling(map[], 1, me, a), 2, me, b) == Calling(Calling(map[], 2, me, b), 1, me, a)
  {
  }

  /** And the other cannot complete it. */
  lemma NobodyCompletesIt()
    ensures Leads(after, end)
  {
    SlowCallAbandons();
    Swapped(Done(NotPublishedRelease(1)), Completing(1, GoOn(ToEdit)));
    WhatIsDropped();
    CompletingAbandonedFails(dropped, refrozen, 1);
    Acting(after, dropped, refrozen, answered, 2, me, Completing(1, GoOn(ToEdit)), true);
  }

  lemma EndIsStranded()
    ensures Stranded(end)
  {
    WhatIsDropped();
    WhatIsOpen();
    assert dropped.editions[1] == Edition(2, Editing) && IsFrozen(refrozen, 2);
  }

  /** With no new edition opened between a call's check and its begin, no run strands an
      edition; with one, this run does. */
  lemma StaleBeginStrandsAnEdition()
    ensures exists events :: Runs(Initial(me, 1), events) && Stranded(Final(Initial(me, 1), events))
    ensures forall events :: Runs(Initial(me, 1), events) && RunUndisturbed(Initial(me, 1), events) ==>
              !Stranded(Final(Initial(me, 1), events))
  {
    SlowCallRecords();
    NobodyCompletesIt();
    EndIsStranded();
    var first :| Runs(Initial(me, 1), first) && Final(Initial(me, 1), first) == after;
    var rest :| UndisturbedTo(after, end, rest);
    RunsOn(Initial(me, 1), first, rest);
    UndisturbedNeverStrands();
  }

  lemma UndisturbedNeverStrands()
    ensures forall events :: Runs(Initial(me, 1), events) && RunUndisturbed(Initial(me, 1), events) ==>
              !Stranded(Final(Initial(me, 1), events))
  {
    forall events | Runs(Initial(me, 1), events) && RunUndisturbed(Initial(me, 1), events)
      ensures !Stranded(Final(Initial(me, 1), events))
    {
      InitialIsOk(me, 1);
      EveryRunKeepsOk(Initial(me, 1), events);
    }
  }
}
