/** What Play starts each edition's draft from: the version of the edition before it
    (orchestrator/gameauthoring/ensure_draft.go). */
module DraftBases {
  import opened Options
  import opened GameLifecycle
  import opened PlayVersions
  import opened Publication

  /** Edition i is built in version, and base is the version of the edition before it, or
      nothing for the game's first. */
  predicate ContinuesAt(g: Game, i: nat, version: Uuid, base: Option<Uuid>) {
    && i < |g.editions| && g.editions[i].version == version
    && base == if i == 0 then None else Some(g.editions[i - 1].version)
  }

  ghost predicate Continues(g: Game, version: Uuid, base: Option<Uuid>) { exists i: nat :: ContinuesAt(g, i, version, base) }

  /** A call that may create a draft of version does so from what it continues, or finds it there. */
  ghost predicate BaseKept(g: Game, p: Play, pc: Pc) {
    pc.Checking? || pc.EditingDraft? || pc.CreatingDraft? ==>
      && (pc.version in p.versions || Continues(g, pc.version, pc.base))
      && (pc.CreatingDraft? && pc.back.Some? ==>
            (pc.back.value.Checking? || pc.back.value.EditingDraft?) && BaseKept(g, p, pc.back.value))
  }

  ghost predicate BasesKept(s: System) { forall id :: id in s.calls ==> BaseKept(s.game, s.play, s.calls[id].pc) }

  lemma ContinuesStays(g: Game, p: Play, h: Game, q: Play, version: Uuid, base: Option<Uuid>)
    requires Grows(g, p, h, q) && Continues(g, version, base)
    ensures Continues(h, version, base)
  {
    var i: nat :| ContinuesAt(g, i, version, base);
    assert EditionGrows(g.editions[i], h.editions[i]);
    if i > 0 { assert EditionGrows(g.editions[i - 1], h.editions[i - 1]); }
    assert ContinuesAt(h, i, version, base);
  }

  lemma {:induction false} BaseStays(g: Game, p: Play, h: Game, q: Play, pc: Pc)
    requires Grows(g, p, h, q) && BaseKept(g, p, pc)
    ensures BaseKept(h, q, pc)
  {
    if pc.Checking? || pc.EditingDraft? || pc.CreatingDraft? {
      if pc.version !in p.versions { ContinuesStays(g, p, h, q, pc.version, pc.base); }
      if pc.CreatingDraft? && pc.back.Some? { BaseStays(g, p, h, q, pc.back.value); }
    }
  }

  /** What a call finds open continues the newest published edition, the one before it. */
  lemma EditableContinues(g: Game, p: Play, user: string)
    requires Sound(g, p)
    ensures var found := FindEditableVersion(g, user); found.EditableFound? ==> Continues(g, found.version, found.base)
  {
    var open, found := LatestEdition(g.editions, Editing), FindEditableVersion(g, user);
    if found.EditableFound? {
      var i := open.value;
      assert i > 0 ==> g.editions[i - 1].status == Published;
      assert ContinuesAt(g, i, found.version, found.base);
    }
  }

  lemma RecordedContinues(g: Game, p: Play, key: Key)
    requires Sound(g, p) && key in g.requests && LatestEdition(g.editions, Published).Some?
    ensures var e, base := g.requests[key], LatestEdition(g.editions, Published).value;
            e < |g.editions| && (g.editions[e].version in p.versions || Continues(g, g.editions[e].version, Some(g.editions[base].version)))
  {
    var e, base := g.requests[key], LatestEdition(g.editions, Published).value;
    if g.editions[e].status == Editing {
      assert e == |g.editions| - 1 && g.editions[e - 1].status == Published;
      assert ContinuesAt(g, e, g.editions[e].version, Some(g.editions[base].version));
    }
  }

  lemma NextContinues(g: Game, h: Game, p: Play, newVersion: Uuid)
    requires Sound(g, p) && Opens(g, h, newVersion) && LatestEdition(g.editions, Published).Some?
    ensures Continues(h, newVersion, Some(g.editions[LatestEdition(g.editions, Published).value].version))
  {
    var base := LatestEdition(g.editions, Published).value;
    assert base == |g.editions| - 1;
    assert ContinuesAt(h, |g.editions|, newVersion, Some(g.editions[base].version));
  }

  /** So does what an opening names, unless its edition was published since and is frozen. */
  lemma OpeningContinues(g: Game, p: Play, user: string, key: Key, newVersion: Uuid)
    requires Sound(g, p) && !Known(g, newVersion)
    ensures var (h, answer) := OpenEdition(g, user, key, newVersion);
            answer.Opened? ==> answer.version in p.versions || Continues(h, answer.version, Some(answer.base))
  {
    var (h, answer) := OpenEdition(g, user, key, newVersion);
    OpenAnswers(g, user, key, newVersion);
    if answer.Opened? {
      if h == g {
        RecordedContinues(g, p, key);
      } else {
        NextContinues(g, h, p, newVersion);
      }
    }
  }

  predicate MayCreate(pc: Pc) { pc.Checking? || pc.EditingDraft? || pc.CreatingDraft? }

  lemma CreatorKeepsBase(g: Game, p: Play, user: string, pc: Pc, newVersion: Uuid, accepted: bool)
    requires BaseKept(g, p, pc) && MayCreate(pc)
    requires var (h, q, to) := Act(g, p, user, pc, newVersion, accepted); Grows(g, p, h, q)
    ensures var (h, q, to) := Act(g, p, user, pc, newVersion, accepted); BaseKept(h, q, to)
  {
    var (h, q, to) := Act(g, p, user, pc, newVersion, accepted);
    BaseStays(g, p, h, q, pc);
  }

  lemma FinderKeepsBase(g: Game, p: Play, user: string, pc: Pc, newVersion: Uuid, accepted: bool)
    requires Sound(g, p) && (pc.FindingEditable? || pc.Ensuring?)
    ensures var (h, q, to) := Act(g, p, user, pc, newVersion, accepted); BaseKept(h, q, to)
  {
    EditableContinues(g, p, user);
  }

  lemma OpenerKeepsBase(g: Game, p: Play, user: string, key: Key, newVersion: Uuid)
    requires Sound(g, p) && !Known(g, newVersion)
    ensures var (h, to) := ActOpening(g, user, key, newVersion); BaseKept(h, p, to)
  {
    OpeningContinues(g, p, user, key, newVersion);
  }

  lemma OtherCreatesNothing(g: Game, p: Play, user: string, pc: Pc, newVersion: Uuid, accepted: bool)
    requires !MayCreate(pc) && !pc.FindingEditable? && !pc.Ensuring? && !pc.Opening?
    ensures !MayCreate(Act(g, p, user, pc, newVersion, accepted).2)
  {
  }

  lemma ActKeepsBase(g: Game, p: Play, user: string, pc: Pc, newVersion: Uuid, accepted: bool)
    requires Sound(g, p) && PcOk(g, p, pc) && Undisturbed(g, user, pc) && (pc.Opening? ==> !Known(g, newVersion))
    requires BaseKept(g, p, pc)
    ensures var (h, q, to) := Act(g, p, user, pc, newVersion, accepted); BaseKept(h, q, to)
  {
    ActKeeps(g, p, user, pc, newVersion, accepted);
    if MayCreate(pc) {
      CreatorKeepsBase(g, p, user, pc, newVersion, accepted);
    } else if pc.FindingEditable? || pc.Ensuring? {
      FinderKeepsBase(g, p, user, pc, newVersion, accepted);
    } else if pc.Opening? {
      OpenerKeepsBase(g, p, user, pc.key, newVersion);
    } else {
      OtherCreatesNothing(g, p, user, pc, newVersion, accepted);
    }
  }

  lemma EventKeepsBases(s: System, e: Event)
    requires SystemOk(s) && BasesKept(s) && Enabled(s, e) && EventUndisturbed(s, e)
    ensures BasesKept(After(s, e))
  {
    var t := After(s, e);
    EventKeepsOk(s, e);
    forall id | id in t.calls
      ensures BaseKept(t.game, t.play, t.calls[id].pc)
    {
      if id in s.calls && t.calls[id] == s.calls[id] {
        BaseStays(s.game, s.play, t.game, t.play, s.calls[id].pc);
      } else if e.Acts? {
        ActKeepsBase(s.game, s.play, s.calls[id].user, s.calls[id].pc, e.newVersion, e.accepted);
      } else {
        assert MayCreate(t.calls[id].pc) ==> ContinuesAt(s.game, 0, t.calls[id].pc.version, None);
      }
    }
  }

  lemma {:induction false} EveryRunKeepsBases(s: System, events: seq<Event>)
    requires SystemOk(s) && BasesKept(s) && Runs(s, events) && RunUndisturbed(s, events)
    ensures SystemOk(Final(s, events)) && BasesKept(Final(s, events))
    decreases events
  {
    if events != [] {
      EventKeepsOk(s, events[0]);
      EventKeepsBases(s, events[0]);
      EveryRunKeepsBases(After(s, events[0]), events[1..]);
    }
  }

  lemma OnlyCreatingAdds(g: Game, p: Play, user: string, pc: Pc, newVersion: Uuid, accepted: bool, v: Uuid)
    requires v !in p.versions && v in Act(g, p, user, pc, newVersion, accepted).1.versions
    ensures pc.CreatingDraft? && pc.version == v && CanStartFrom(p, pc.base)
  {
  }

  /** In every run, crashes and repairs included: whenever a version appears in Play, it is
      made from the version of the edition before its own, which is executable, and the
      game's first from nothing. */
  lemma EveryDraftContinuesItsGame(owner: string, first: Uuid, before: seq<Event>, e: Event, v: Uuid)
    requires Runs(Initial(owner, first), before) && RunUndisturbed(Initial(owner, first), before)
    requires Enabled(Final(Initial(owner, first), before), e)
    requires v !in Final(Initial(owner, first), before).play.versions && v in After(Final(Initial(owner, first), before), e).play.versions
    ensures var s := Final(Initial(owner, first), before);
            && e.Acts? && s.calls[e.id].pc.CreatingDraft? && s.calls[e.id].pc.version == v
            && Continues(s.game, v, s.calls[e.id].pc.base)
            && (s.calls[e.id].pc.base.Some? ==> IsFrozen(s.play, s.calls[e.id].pc.base.value))
  {
    InitialIsOk(owner, first);
    EveryRunKeepsBases(Initial(owner, first), before);
    var s := Final(Initial(owner, first), before);
    OnlyCreatingAdds(s.game, s.play, s.calls[e.id].user, s.calls[e.id].pc, e.newVersion, e.accepted, v);
  }
}
