/** A game whose first edition is published and whose next is opened, beside calls that
    stand still, one event at a time. */
module TwoEditions {
  import opened Options
  import opened GameLifecycle
  import opened PlayVersions
  import opened Publication
  import opened PublicationRuns
  import opened RecordedRelease

  const me := "owner"
  const opening := "open"

  const begun := NewGame(me, 1)
  const drafted := Drafted(Play(map[], None), 1)
  const built := FinishBuild(drafted, 1, 1)
  const recorded := BeginPublication(begun, me, 1, PublicGame, "first").0
  const frozen := FreezeVersion(built, 1, 1).0
  const published := CompletePublication(recorded, 0).0
  const open := OpenEdition(published, me, opening, 2).0
  const redrafted := Drafted(frozen, 2)

  ghost predicate Comes(g: Game, p: Play, calls: map<nat, Call>) { Leads(Initial(me, 1), System(g, p, calls)) }

  /** The first edition's draft is made and built. */
  lemma FirstIsBuilt()
    ensures Comes(begun, built, map[])
  {
    var s := Initial(me, 1);
    LeadsToItself(s);
    DraftIsMade(s, begun, Play(map[], None), map[], 1, 1);
    DraftIsBuilt(s, begun, drafted, map[], 1, 1);
  }

  lemma FirstIsRecorded(calls: map<nat, Call>, id: nat)
    requires Comes(begun, built, calls) && id !in calls
    ensures Comes(recorded, built, Calling(calls, id, me, Freezing(0, AnswerOwn)))
  {
    var s := Initial(me, 1);
    DraftIsChecked(s, begun, built, calls, id, 1, 1, "first");
    Acting(s, begun, built, calls, id, me, Beginning(1, 1, PublicGame, "first"), true);
  }

  /** It is published. */
  lemma FirstIsPublished(calls: map<nat, Call>, id: nat)
    requires Comes(begun, built, calls) && id !in calls
    ensures Comes(published, frozen, calls)
  {
    var s := Initial(me, 1);
    FirstIsRecorded(calls, id);
    Acting(s, recorded, built, calls, id, me, Freezing(0, AnswerOwn), true);
    Acting(s, recorded, frozen, calls, id, me, Completing(0, AnswerOwn), true);
    Leaving(s, published, frozen, calls, id, me, Done(PublishedRelease(0)));
  }

  lemma WhatIsOpen()
    ensures published.editions == [Edition(1, Published)] && published.published && published.named
    ensures OpenEdition(published, me, opening, 2).1 == Opened(2, 1)
    ensures open.editions == [Edition(1, Published), Edition(2, Editing)] && open.requests == map[opening := 1]
    ensures LatestEdition(open.editions, Editing) == Some(1) && PendingRelease(open.releases).None? && open.named
    ensures open.owner == me && open.releases == published.releases && |open.releases| == 1 && open.releases[0].key == "first"
  {
    assert LatestEdition(published.editions, Published) == Some(0);
  }

  /** The next edition is opened. */
  lemma NextIsOpened(calls: map<nat, Call>, id: nat)
    requires Comes(published, frozen, calls) && id !in calls
    ensures Comes(open, frozen, Calling(calls, id, me, CreatingDraft(2, Some(1), None)))
  {
    var s := Initial(me, 1);
    WhatIsOpen();
    Arriving(s, System(published, frozen, calls), id, me, Resuming(ToOpen(opening)));
    Acting(s, published, frozen, calls, id, me, Resuming(ToOpen(opening)), true);
    OpeningActs(s, published, frozen, calls, id, me, opening, 2);
  }

  /** And its draft made. */
  lemma NextIsDrafted(calls: map<nat, Call>, id: nat)
    requires Comes(published, frozen, calls) && id !in calls
    ensures Comes(open, redrafted, calls)
  {
    var s := Initial(me, 1);
    NextIsOpened(calls, id);
    Acting(s, open, frozen, calls, id, me, CreatingDraft(2, Some(1), None), true);
    Leaving(s, open, redrafted, calls, id, me, Done(DraftEnsured(2, 1)));
  }
}
