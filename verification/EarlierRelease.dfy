/** A call whose begin finds another release being published ends that release and answers
    not_editable, whatever became of it (orchestrator/gameauthoring/publish.go). */
module EarlierRelease {
  import opened Options
  import opened GameLifecycle
  import opened PlayVersions
  import opened Publication
  import opened PublicationRecovery
  import opened PublicationRuns
  import opened RecordedRelease
  import opened TwoEditions

  lemma RefusedIsAbandoned(g: Game, p: Play, r: nat, newVersion: Uuid, accepted: bool)
    requires Sound(g, p) && PendingRelease(g.releases) == Some(r) && Past(p, VersionOf(g, r), g.releases[r].revision)
    ensures Alone(g, p, g.owner, Freezing(r, AnswerEarlier), newVersion, accepted)
         == (AbandonPublication(g, r), p, PublicationRefused(NotEditable))
    ensures var h := AbandonPublication(g, r); h.releases[r].end == Abandoned && LatestEdition(h.editions, Editing).Some?
  {
    assert ReleaseMatchesPlay(g, p, r);
    assert AbandonPublication(g, r).editions[g.releases[r].edition].status == Editing;
    assert ActFreezing(g, p, r, AnswerEarlier) == (p, Abandoning(r, AnswerEarlier));
    assert Alone(g, p, g.owner, Freezing(r, AnswerEarlier), newVersion, accepted)
        == Alone(g, p, g.owner, Abandoning(r, AnswerEarlier), newVersion, accepted)
        == Alone(AbandonPublication(g, r), p, g.owner, Done(PublicationRefused(NotEditable)), newVersion, accepted);
  }

  lemma FrozenIsCompleted(g: Game, p: Play, r: nat, newVersion: Uuid, accepted: bool)
    requires Sound(g, p) && PendingRelease(g.releases) == Some(r) && !Past(p, VersionOf(g, r), g.releases[r].revision)
    ensures var (h, q, answer) := Alone(g, p, g.owner, Freezing(r, AnswerEarlier), newVersion, accepted);
            h == CompletePublication(g, r).0 && answer == PublicationRefused(NotEditable)
    ensures var h := CompletePublication(g, r).0;
            |h.releases| == |g.releases| && h.releases[r].end == Completed && LatestEdition(h.editions, Editing).None?
  {
    assert ReleaseMatchesPlay(g, p, r);
    var q := FreezeVersion(p, VersionOf(g, r), g.releases[r].revision).0;
    assert ActFreezing(g, p, r, AnswerEarlier) == (q, Completing(r, AnswerEarlier));
    var h := CompletePublication(g, r).0;
    assert Alone(g, p, g.owner, Freezing(r, AnswerEarlier), newVersion, accepted)
        == Alone(g, q, g.owner, Completing(r, AnswerEarlier), newVersion, accepted)
        == Alone(h, q, g.owner, Done(PublicationRefused(NotEditable)), newVersion, accepted);
  }

  lemma FindsEarlier(g: Game, p: Play, pc: Pc, r: nat, newVersion: Uuid, accepted: bool)
    requires pc.Beginning? && BeginPublication(g, g.owner, pc.revision, pc.visibility, pc.key).1 == PendingFirst(r)
    ensures PendingRelease(g.releases) == Some(r)
    ensures Alone(g, p, g.owner, pc, newVersion, accepted) == Alone(g, p, g.owner, Freezing(r, AnswerEarlier), newVersion, accepted)
  {
  }

  /** From any stores calls can reach: a call whose begin finds release r being published
      always answers not_editable, and that is what holds afterwards, no edition being open,
      unless and only unless Play is past r's revision, which makes r abandoned. */
  lemma NotEditableIsWrongIffPast(g: Game, p: Play, pc: Pc, r: nat, newVersion: Uuid, accepted: bool)
    requires Sound(g, p) && pc.Beginning?
    requires BeginPublication(g, g.owner, pc.revision, pc.visibility, pc.key).1 == PendingFirst(r)
    ensures var (h, q, answer) := Alone(g, p, g.owner, pc, newVersion, accepted);
            && answer == PublicationRefused(NotEditable) && r < |h.releases| && h.releases[r].end != Pending
            && (LatestEdition(h.editions, Editing).Some? <==> Past(p, VersionOf(g, r), g.releases[r].revision))
            && (h.releases[r].end == Abandoned <==> Past(p, VersionOf(g, r), g.releases[r].revision))
  {
    FindsEarlier(g, p, pc, r, newVersion, accepted);
    if Past(p, VersionOf(g, r), g.releases[r].revision) {
      RefusedIsAbandoned(g, p, r, newVersion, accepted);
    } else {
      FrozenIsCompleted(g, p, r, newVersion, accepted);
    }
  }

  // --- A run that reaches such a call ---

  const edited := EditDraft(built, 1, true).0
  const entered := BeginPublication(begun, me, 1, PublicGame, "a").0

  /** Two publications check the draft, ready at revision 1. */
  lemma BothCheck()
    ensures var calls := Calling(map[], 2, me, Beginning(1, 1, PublicGame, "b"));
            Leads(Initial(me, 1), System(begun, built, Calling(calls, 3, me, Beginning(1, 1, PublicGame, "a"))))
  {
    var s := Initial(me, 1);
    FirstIsBuilt();
    DraftIsChecked(s, begun, built, map[], 2, 1, 1, "b");
    DraftIsChecked(s, begun, built, Calling(map[], 2, me, Beginning(1, 1, PublicGame, "b")), 3, 1, 1, "a");
  }

  const waiting := Calling(map[], 2, me, Beginning(1, 1, PublicGame, "b"))
  const both := System(entered, edited, Calling(waiting, 3, me, Freezing(0, AnswerOwn)))

  /** The draft is edited, and one of them is recorded all the same. */
  lemma OneIsRecorded()
    ensures Leads(Initial(me, 1), both)
    ensures BeginPublication(entered, me, 1, PublicGame, "b").1 == PendingFirst(0)
    ensures |entered.releases| == 1 && entered.releases[0].edition == 0 && Past(edited, VersionOf(entered, 0), 1)
  {
    var s := Initial(me, 1);
    BothCheck();
    DraftIsEdited(s, begun, built, Calling(waiting, 3, me, Beginning(1, 1, PublicGame, "a")), 4, 1);
    Acting(s, begun, edited, waiting, 3, me, Beginning(1, 1, PublicGame, "a"), true);
    assert ReleaseByKey(entered.releases, "b").None? && PendingRelease(entered.releases) == Some(0);
  }

  /** The call left at its begin. */
  function LeftAtBegin(s: System): (Game, Play, Answer)
    requires 2 in s.calls && s.calls[2].pc.Beginning?
  {
    Alone(s.game, s.play, me, s.calls[2].pc, 0, false)
  }

  /** The other then finds that one being published at a revision Play is past: it answers
      not_editable of a game whose edition stays open. */
  lemma NotEditableCanBeWrong()
    ensures exists events :: Runs(Initial(me, 1), events) && RunUndisturbed(Initial(me, 1), events)
              && var s := Final(Initial(me, 1), events);
                 && 2 in s.calls && s.calls[2].pc.Beginning?
                 && LeftAtBegin(s).2 == PublicationRefused(NotEditable)
                 && LatestEdition(LeftAtBegin(s).0.editions, Editing).Some?
  {
    OneIsRecorded();
    var events :| UndisturbedTo(Initial(me, 1), both, events);
    InitialIsOk(me, 1);
    EveryRunKeepsOk(Initial(me, 1), events);
    NotEditableIsWrongIffPast(entered, edited, Beginning(1, 1, PublicGame, "b"), 0, 0, false);
    assert both.calls[2].pc == Beginning(1, 1, PublicGame, "b");
  }
}
