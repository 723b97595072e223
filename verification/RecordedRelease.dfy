/** When a release BeginPublication records can come to harm: it is given a revision and no
    version, so the revision may not be one Play can freeze the open edition's version at
    (orchestrator/gameauthoring/publish.go, game/workflows/gamelifecycle/step_publish.go). */
module RecordedRelease {
  import opened Options
  import opened GameLifecycle
  import opened PlayVersions
  import opened Publication
  import opened PublicationRuns

  // --- Revisions start at 1, and only those made are ready ---

  predicate Numbered(v: Version) { 1 <= v.revision && (v.Draft? ==> forall n :: n in v.ready ==> 1 <= n <= v.revision) }

  predicate PcNumbered(pc: Pc) { pc.Beginning? ==> 1 <= pc.revision }

  /** Shaped as the calls are: a draft made on the way is checked or edited next. */
  predicate BackOk(pc: Pc) { pc.CreatingDraft? && pc.back.Some? ==> pc.back.value.Checking? || pc.back.value.EditingDraft? }

  predicate FromOne(s: System) {
    && (forall v :: v in s.play.versions ==> Numbered(s.play.versions[v]))
    && (forall id :: id in s.calls ==> PcNumbered(s.calls[id].pc) && BackOk(s.calls[id].pc))
  }

  lemma ActStaysNumbered(g: Game, p: Play, user: string, pc: Pc, newVersion: Uuid, accepted: bool)
    requires (forall v :: v in p.versions ==> Numbered(p.versions[v])) && PcNumbered(pc) && BackOk(pc)
    ensures var (h, q, to) := Act(g, p, user, pc, newVersion, accepted);
            (forall v :: v in q.versions ==> Numbered(q.versions[v])) && PcNumbered(to) && BackOk(to)
  {
  }

  lemma {:induction false} EveryRunIsFromOne(s: System, events: seq<Event>)
    requires FromOne(s) && Runs(s, events)
    ensures FromOne(Final(s, events))
    decreases events
  {
    if events != [] {
      if events[0].Acts? {
        var c := s.calls[events[0].id];
        ActStaysNumbered(s.game, s.play, c.user, c.pc, events[0].newVersion, events[0].accepted);
      }
      EveryRunIsFromOne(After(s, events[0]), events[1..]);
    }
  }

  // --- Calls of the owner, one after another, beside calls that stand still ---

  /** The game's open edition is built in v, and nothing is being published. */
  predicate OpenIn(g: Game, v: Uuid) {
    && LatestEdition(g.editions, Editing).Some? && g.editions[LatestEdition(g.editions, Editing).value].version == v
    && PendingRelease(g.releases).None?
  }

  predicate DraftAt(p: Play, v: Uuid, revision: nat) { v in p.versions && p.versions[v].Draft? && p.versions[v].revision == revision }

  function Drafted(p: Play, v: Uuid): Play { p.(versions := p.versions[v := Draft(1, {})]) }

  /** A missing draft is made. */
  lemma DraftIsMade(s: System, g: Game, p: Play, calls: map<nat, Call>, id: nat, v: Uuid)
    requires Leads(s, System(g, p, calls)) && id !in calls
    requires LatestEdition(g.editions, Editing).Some? && g.editions[LatestEdition(g.editions, Editing).value].version == v
    requires v !in p.versions && !HasDraft(p)
    requires LatestEdition(g.editions, Published).Some? ==> IsFrozen(p, g.editions[LatestEdition(g.editions, Published).value].version)
    ensures Leads(s, System(g, Drafted(p, v), calls))
  {
    var base := FindEditableVersion(g, g.owner).base;
    Arriving(s, System(g, p, calls), id, g.owner, Ensuring);
    Acting(s, g, p, calls, id, g.owner, Ensuring, true);
    Acting(s, g, p, calls, id, g.owner, CreatingDraft(v, base, None), true);
    Leaving(s, g, Drafted(p, v), calls, id, g.owner, Done(DraftEnsured(v, 1)));
  }

  /** Play refuses the pending release's revision, so the next call abandons it. */
  lemma ReleaseIsAbandoned(s: System, g: Game, p: Play, calls: map<nat, Call>, id: nat, r: nat)
    requires Leads(s, System(g, p, calls)) && id !in calls
    requires PendingRelease(g.releases) == Some(r) && g.releases[r].edition < |g.editions|
    requires FreezeVersion(p, VersionOf(g, r), g.releases[r].revision).1.FreezeNotReady?
    ensures Leads(s, System(AbandonPublication(g, r), p, calls))
  {
    var h := AbandonPublication(g, r);
    Arriving(s, System(g, p, calls), id, g.owner, Resuming(ToEdit));
    Acting(s, g, p, calls, id, g.owner, Resuming(ToEdit), true);
    Acting(s, g, p, calls, id, g.owner, Freezing(r, GoOn(ToEdit)), true);
    Acting(s, g, p, calls, id, g.owner, Abandoning(r, GoOn(ToEdit)), true);
    Leaving(s, h, p, calls, id, g.owner, FindingEditable(ToEdit));
  }

  lemma EditIsReached(s: System, g: Game, p: Play, calls: map<nat, Call>, id: nat, v: Uuid)
    requires Leads(s, System(g, p, calls)) && id !in calls && OpenIn(g, v)
    ensures Leads(s, System(g, p, Calling(calls, id, g.owner, EditingDraft(v, FindEditableVersion(g, g.owner).base, false))))
  {
    Arriving(s, System(g, p, calls), id, g.owner, Resuming(ToEdit));
    Acting(s, g, p, calls, id, g.owner, Resuming(ToEdit), true);
    Acting(s, g, p, calls, id, g.owner, FindingEditable(ToEdit), true);
  }

  /** An edit makes the next revision. */
  lemma DraftIsEdited(s: System, g: Game, p: Play, calls: map<nat, Call>, id: nat, v: Uuid)
    requires Leads(s, System(g, p, calls)) && id !in calls && OpenIn(g, v) && v in p.versions && p.versions[v].Draft?
    ensures Leads(s, System(g, EditDraft(p, v, true).0, calls))
  {
    var base := FindEditableVersion(g, g.owner).base;
    var (q, edit) := EditDraft(p, v, true);
    EditIsReached(s, g, p, calls, id, v);
    Acting(s, g, p, calls, id, g.owner, EditingDraft(v, base, false), true);
    Leaving(s, g, q, calls, id, g.owner, Done(EditAnswered(edit)));
  }

  lemma {:induction false} DraftReaches(s: System, g: Game, p: Play, calls: map<nat, Call>, id: nat, v: Uuid, n: nat) returns (q: Play)
    requires Leads(s, System(g, p, calls)) && id !in calls && OpenIn(g, v)
    requires v in p.versions && p.versions[v].Draft? && p.versions[v].revision <= n
    ensures Leads(s, System(g, q, calls)) && DraftAt(q, v, n)
    decreases n - p.versions[v].revision
  {
    if p.versions[v].revision == n {
      q := p;
    } else {
      DraftIsEdited(s, g, p, calls, id, v);
      q := DraftReaches(s, g, EditDraft(p, v, true).0, calls, id, v, n);
    }
  }

  /** Its build finishes. */
  lemma DraftIsBuilt(s: System, g: Game, p: Play, calls: map<nat, Call>, v: Uuid, n: nat)
    requires Leads(s, System(g, p, calls)) && DraftAt(p, v, n) && 1 <= n
    ensures var q := FinishBuild(p, v, n); Leads(s, System(g, q, calls)) && DraftAt(q, v, n) && n in q.versions[v].ready
  {
    LeadsOn(s, System(g, p, calls), BuildFinishes(v, n));
  }

  lemma CheckIsReached(s: System, g: Game, p: Play, calls: map<nat, Call>, id: nat, v: Uuid, key: Key)
    requires Leads(s, System(g, p, calls)) && id !in calls && OpenIn(g, v) && ReleaseByKey(g.releases, key).None?
    ensures Leads(s, System(g, p, Calling(calls, id, g.owner, Checking(v, FindEditableVersion(g, g.owner).base, PublicGame, key, false))))
  {
    var goal := ToPublish(PublicGame, key);
    Arriving(s, System(g, p, calls), id, g.owner, Resuming(goal));
    Acting(s, g, p, calls, id, g.owner, Resuming(goal), true);
    Acting(s, g, p, calls, id, g.owner, FindingByKey(PublicGame, key), true);
    Acting(s, g, p, calls, id, g.owner, FindingEditable(goal), true);
  }

  /** A publication under a new key checks the draft, ready at n. */
  lemma DraftIsChecked(s: System, g: Game, p: Play, calls: map<nat, Call>, id: nat, v: Uuid, n: nat, key: Key)
    requires Leads(s, System(g, p, calls)) && id !in calls && OpenIn(g, v)
    requires DraftAt(p, v, n) && n in p.versions[v].ready && ReleaseByKey(g.releases, key).None?
    ensures Leads(s, System(g, p, Calling(calls, id, g.owner, Beginning(v, n, PublicGame, key))))
  {
    var base := FindEditableVersion(g, g.owner).base;
    CheckIsReached(s, g, p, calls, id, v, key);
    Acting(s, g, p, calls, id, g.owner, Checking(v, base, PublicGame, key, false), true);
  }

  /** And freezes it there. */
  lemma DraftIsFrozen(s: System, g: Game, p: Play, calls: map<nat, Call>, id: nat, v: Uuid, n: nat, key: Key) returns (t: System)
    requires Leads(s, System(g, p, calls)) && id !in calls && OpenIn(g, v) && g.named
    requires DraftAt(p, v, n) && n in p.versions[v].ready && ReleaseByKey(g.releases, key).None?
    ensures Leads(s, t) && FrozenAt(t.play, v, n) && t.game.editions == g.editions
    ensures |t.game.releases| == |g.releases| + 1 && t.game.releases[..|g.releases|] == g.releases
  {
    var h := BeginPublication(g, g.owner, n, PublicGame, key).0;
    var r := |g.releases|;
    DraftIsChecked(s, g, p, calls, id, v, n, key);
    Acting(s, g, p, calls, id, g.owner, Beginning(v, n, PublicGame, key), true);
    assert Act(g, p, g.owner, Beginning(v, n, PublicGame, key), 0, true) == (h, p, Freezing(r, AnswerOwn));
    Acting(s, h, p, calls, id, g.owner, Freezing(r, AnswerOwn), true);
    var q := FreezeVersion(p, v, n).0;
    t := System(h, q, Calling(calls, id, g.owner, Completing(r, AnswerOwn)));
  }

  // --- Recording a release of a revision Play cannot freeze ---

  lemma {:induction false} LongerKey(releases: seq<Release>) returns (key: Key)
    ensures forall i :: 0 <= i < |releases| ==> |releases[i].key| < |key|
  {
    key := "k";
    if releases != [] {
      key := LongerKey(releases[..|releases| - 1]);
      var last := releases[|releases| - 1].key;
      if |key| <= |last| {
        key := last + "k";
      }
    }
  }

  lemma NoPending(releases: seq<Release>)
    requires forall i :: 0 <= i < |releases| ==> releases[i].end != Pending
    ensures PendingRelease(releases).None?
  {
  }

  /** Once the release is abandoned, its version's draft can still be edited up to the
      release's revision, built, and frozen there by another release. */
  lemma AbandonedThenFrozen(s: System, g: Game, p: Play, calls: map<nat, Call>, id: nat, v: Uuid, n: nat, r: nat) returns (t: System)
    requires Leads(s, System(g, p, calls)) && id !in calls && OpenIn(g, v)
    requires v in p.versions && p.versions[v].Draft? && 1 <= p.versions[v].revision <= n
    requires r < |g.releases| && g.releases[r].edition < |g.editions| && VersionOf(g, r) == v
    requires g.releases[r].end == Abandoned && g.releases[r].revision == n
    ensures Leads(s, t) && Harmed(t)
  {
    var edited := DraftReaches(s, g, p, calls, id, v, n);
    DraftIsBuilt(s, g, edited, calls, v, n);
    var built := FinishBuild(edited, v, n);
    var named := g.(named := true);
    LeadsOn(s, System(g, built, calls), Renamed(true));
    var key := LongerKey(g.releases);
    t := DraftIsFrozen(s, named, built, calls, id, v, n, key);
    assert t.game.releases[..|g.releases|][r] == g.releases[r];
    assert WronglyAbandoned(t.game, t.play, r);
  }

  /** A recorded release whose revision the draft has not reached, or is at and not ready,
      is abandoned by the next call. */
  lemma UnreadyIsHarmed(s: System, g: Game, p: Play, calls: map<nat, Call>, id: nat, r: nat) returns (t: System)
    requires Leads(s, System(g, p, calls)) && id !in calls
    requires PendingRelease(g.releases) == Some(r) && (forall i :: 0 <= i < |g.releases| && i != r ==> g.releases[i].end != Pending)
    requires LatestEdition(g.editions, Editing) == Some(g.releases[r].edition)
    requires var v, n := VersionOf(g, r), g.releases[r].revision;
             v in p.versions && p.versions[v].Draft? && 1 <= p.versions[v].revision <= n && !Publishable(p, v, n)
    ensures Leads(s, t) && Harmed(t)
  {
    var h := AbandonPublication(g, r);
    ReleaseIsAbandoned(s, g, p, calls, id, r);
    NoPending(h.releases);
    t := AbandonedThenFrozen(s, h, p, calls, id, VersionOf(g, r), g.releases[r].revision, r);
  }

  lemma MissingDraftCanBeMade(g: Game, p: Play, v: Uuid)
    requires Sound(g, p) && PendingRelease(g.releases).None? && LatestEdition(g.editions, Editing).Some?
    requires v == g.editions[LatestEdition(g.editions, Editing).value].version && v !in p.versions
    ensures !HasDraft(p)
    ensures LatestEdition(g.editions, Published).Some? ==> IsFrozen(p, g.editions[LatestEdition(g.editions, Published).value].version)
  {
    forall w | w in p.versions
      ensures !p.versions[w].Draft?
    {
      if p.versions[w].Draft? { DraftIsTheOpenEditions(g, p, w); }
    }
  }

  /** Harm can follow from wherever the recorded revision is not publishable. */
  lemma UnpublishableIsHarmed(s: System, g: Game, p: Play, calls: map<nat, Call>, r: nat, v: Uuid, n: nat) returns (t: System)
    requires Sound(g, p) && PendingRelease(g.releases).None? && LatestEdition(g.editions, Editing).Some?
    requires v == g.editions[LatestEdition(g.editions, Editing).value].version && r == |g.releases| && 1 <= n
    requires forall w :: w in p.versions ==> Numbered(p.versions[w])
    requires !Publishable(p, v, n)
    requires exists visibility, key :: s == System(g.(releases := g.releases + [Release(LatestEdition(g.editions, Editing).value, n, visibility, key, Pending)]), p, calls)
    ensures Leads(s, t) && Harmed(t)
  {
    LeadsToItself(s);
    var id := UnusedId(calls.Keys);
    OpenVersionIsDraft(g, p, v);
    assert s.game.releases[r].end == Pending;
    assert PendingRelease(s.game.releases) == Some(r);
    if v in p.versions {
      t := UnreadyIsHarmed(s, s.game, p, calls, id, r);
    } else {
      MissingDraftCanBeMade(g, p, v);
      DraftIsMade(s, s.game, p, calls, id, v);
      t := UnreadyIsHarmed(s, s.game, Drafted(p, v), calls, id, r);
    }
  }

  predicate Records(s: System, id: nat) {
    && id in s.calls && s.calls[id].pc.Beginning?
    && BeginPublication(s.game, s.calls[id].user, s.calls[id].pc.revision, s.calls[id].pc.visibility, s.calls[id].pc.key).0 != s.game
  }

  function OpenVersion(g: Game): Uuid
    requires LatestEdition(g.editions, Editing).Some?
  {
    g.editions[LatestEdition(g.editions, Editing).value].version
  }

  /** No undisturbed events from s do harm. */
  ghost predicate Safe(s: System) {
    forall events :: Runs(s, events) && RunUndisturbed(s, events) ==> !Harmed(Final(s, events))
  }

  /** What recording does, and when it keeps the stores in agreement. */
  lemma Recorded(s: System, id: nat, newVersion: Uuid, accepted: bool)
    requires SystemOk(s) && Records(s, id)
    ensures LatestEdition(s.game.editions, Editing).Some? && PendingRelease(s.game.releases).None?
    ensures var t, c := After(s, Acts(id, newVersion, accepted)), s.calls[id];
            var made := Release(LatestEdition(s.game.editions, Editing).value, c.pc.revision, c.pc.visibility, c.pc.key, Pending);
            && t == System(s.game.(releases := s.game.releases + [made]), s.play,
                           s.calls[id := c.(pc := Freezing(|s.game.releases|, AnswerOwn))])
            && Grows(s.game, s.play, t.game, t.play)
            && (Sound(t.game, t.play) <==> Publishable(s.play, OpenVersion(s.game), c.pc.revision))
  {
    var c := s.calls[id];
    BeginRecords(s.game, c.user, c.pc.revision, c.pc.visibility, c.pc.key);
    var made := Release(LatestEdition(s.game.editions, Editing).value, c.pc.revision, c.pc.visibility, c.pc.key, Pending);
    var h := s.game.(releases := s.game.releases + [made]);
    RecordedOk(s.game, s.play, h, made);
    RecordedAgreesIff(s.game, s.play, h, made);
  }

  lemma RecordedStaysOk(s: System, id: nat, newVersion: Uuid, accepted: bool)
    requires SystemOk(s) && Records(s, id) && Sound(After(s, Acts(id, newVersion, accepted)).game, s.play)
    ensures SystemOk(After(s, Acts(id, newVersion, accepted)))
  {
    var t := After(s, Acts(id, newVersion, accepted));
    Recorded(s, id, newVersion, accepted);
    forall i | i in t.calls
      ensures PcOk(t.game, t.play, t.calls[i].pc)
    {
      if i != id { PcStaysOk(s.game, s.play, t.game, t.play, s.calls[i].pc); }
    }
  }

  lemma OkIsSafe(s: System)
    requires SystemOk(s)
    ensures Safe(s)
  {
    forall events | Runs(s, events) && RunUndisturbed(s, events)
      ensures !Harmed(Final(s, events))
    {
      EveryRunKeepsOk(s, events);
      SoundIsUnharmed(Final(s, events));
    }
  }

  lemma SoundIsUnharmed(s: System)
    requires Sound(s.game, s.play)
    ensures !Harmed(s)
  {
    forall r: nat
      ensures !WronglyAbandoned(s.game, s.play, r)
    {
      if r < |s.game.releases| { assert ReleaseMatchesPlay(s.game, s.play, r); }
    }
  }

  lemma SafeIffFrom(s: System, id: nat, newVersion: Uuid, accepted: bool)
    requires SystemOk(s) && FromOne(s) && Records(s, id)
    ensures LatestEdition(s.game.editions, Editing).Some?
    ensures Safe(After(s, Acts(id, newVersion, accepted))) <==> Publishable(s.play, OpenVersion(s.game), s.calls[id].pc.revision)
  {
    var t, n := After(s, Acts(id, newVersion, accepted)), s.calls[id].pc.revision;
    Recorded(s, id, newVersion, accepted);
    if Publishable(s.play, OpenVersion(s.game), n) {
      RecordedStaysOk(s, id, newVersion, accepted);
      OkIsSafe(t);
    } else {
      var bad := UnpublishableIsHarmed(t, s.game, s.play, t.calls, |s.game.releases|, OpenVersion(s.game), n);
      var events :| UndisturbedTo(t, bad, events);
    }
  }

  /** In any state calls can reach, a release about to be recorded can never be stranded,
      nor abandoned and its revision frozen all the same, whatever undisturbed events
      follow, if and only if the open edition's draft is past its revision, or is at it
      and that is ready. */
  lemma RecordedReleaseIsSafeIff(owner: string, first: Uuid, before: seq<Event>, id: nat, newVersion: Uuid, accepted: bool)
    requires Runs(Initial(owner, first), before) && RunUndisturbed(Initial(owner, first), before)
    requires Records(Final(Initial(owner, first), before), id)
    ensures var s := Final(Initial(owner, first), before);
            && LatestEdition(s.game.editions, Editing).Some?
            && (Safe(After(s, Acts(id, newVersion, accepted)))
                <==> Publishable(s.play, OpenVersion(s.game), s.calls[id].pc.revision))
  {
    InitialIsOk(owner, first);
    EveryRunKeepsOk(Initial(owner, first), before);
    EveryRunIsFromOne(Initial(owner, first), before);
    SafeIffFrom(Final(Initial(owner, first), before), id, newVersion, accepted);
  }

  /** Publishable is about the draft alone once nothing is pending: at the revision and
      ready, or past it. */
  lemma PublishableMeans(g: Game, p: Play, n: nat)
    requires Sound(g, p) && PendingRelease(g.releases).None? && LatestEdition(g.editions, Editing).Some?
    ensures var v := OpenVersion(g);
            Publishable(p, v, n) <==>
              v in p.versions && p.versions[v].Draft?
              && (p.versions[v].revision > n || (p.versions[v].revision == n && n in p.versions[v].ready))
  {
    OpenVersionIsDraft(g, p, OpenVersion(g));
  }
}
