/** When a call fails or raises an alert: exactly on which stores, and that in runs only a
    call that raced another one ever fails (orchestrator/gameauthoring). */
module PublicationFailures {
  import opened Options
  import opened GameLifecycle
  import opened PlayVersions
  import opened Publication

  function StepOf(g: Game, p: Play, user: string, pc: Pc, newVersion: Uuid, accepted: bool): Pc {
    Act(g, p, user, pc, newVersion, accepted).2
  }

  /** Data no correct call leaves behind: a pending release of an edition that is not open, a
      recorded opening without its editions, or a draft beside the one asked for. */
  predicate IsBroken(g: Game, p: Play, user: string, pc: Pc) {
    match pc
    case Completing(r, _) =>
      && r < |g.releases| && g.releases[r].end == Pending
      && (g.releases[r].edition >= |g.editions| || g.editions[g.releases[r].edition].status != Editing)
    case Opening(key) =>
      && user == g.owner && key in g.requests
      && (g.requests[key] >= |g.editions| || forall i :: 0 <= i < |g.editions| ==> g.editions[i].status != Published)
    case CreatingDraft(version, _, _) => version !in p.versions && exists v :: v in p.versions && p.versions[v].Draft?
    case _ => false
  }

  /** A call that makes a draft on its way has not ended by then. */
  predicate Returns(pc: Pc) { pc.CreatingDraft? && pc.back.Some? ==> !pc.back.value.Done? }

  /** A call raises an alert if and only if it meets such data. */
  lemma AlertsIff(g: Game, p: Play, user: string, pc: Pc, newVersion: Uuid, accepted: bool)
    requires !pc.Done? && Returns(pc)
    ensures StepOf(g, p, user, pc, newVersion, accepted) == Done(Alerted) <==> IsBroken(g, p, user, pc)
  {
    if ActsOnPlay(pc) {
      PlayAlertsIff(g, p, user, pc, newVersion, accepted);
    } else {
      GameAlertsIff(g, p, user, pc, newVersion, accepted);
    }
  }

  lemma PlayAlertsIff(g: Game, p: Play, user: string, pc: Pc, newVersion: Uuid, accepted: bool)
    requires ActsOnPlay(pc) && Returns(pc)
    ensures StepOf(g, p, user, pc, newVersion, accepted) == Done(Alerted) <==> IsBroken(g, p, user, pc)
  {
  }

  lemma GameAlertsIff(g: Game, p: Play, user: string, pc: Pc, newVersion: Uuid, accepted: bool)
    requires !ActsOnPlay(pc) && !pc.Done?
    ensures StepOf(g, p, user, pc, newVersion, accepted) == Done(Alerted) <==> IsBroken(g, p, user, pc)
  {
    if pc.Opening? { OpenAnswers(g, user, pc.key, newVersion); }
  }

  /** What a call finds gone or decided otherwise. */
  predicate IsFailing(g: Game, p: Play, pc: Pc) {
    match pc
    case Freezing(r, _) => r >= |g.releases| || g.releases[r].edition >= |g.editions| || VersionOf(g, r) !in p.versions
    case Completing(r, _) => r >= |g.releases| || g.releases[r].end == Abandoned
    case Checking(version, _, _, _, repaired) => repaired && version !in p.versions
    case EditingDraft(version, _, repaired) => repaired && version !in p.versions
    case CreatingDraft(version, base, _) =>
      if version in p.versions then p.versions[version].Executable?
      else !HasDraft(p) && base.Some? && !IsFrozen(p, base.value)
    case _ => false
  }

  lemma FailsIff(g: Game, p: Play, user: string, pc: Pc, newVersion: Uuid, accepted: bool)
    requires !pc.Done? && Returns(pc)
    ensures StepOf(g, p, user, pc, newVersion, accepted) == Done(Failed) <==> IsFailing(g, p, pc)
  {
    if ActsOnPlay(pc) {
      PlayFailsIff(g, p, user, pc, newVersion, accepted);
    } else {
      GameFailsIff(g, p, user, pc, newVersion, accepted);
    }
  }

  lemma PlayFailsIff(g: Game, p: Play, user: string, pc: Pc, newVersion: Uuid, accepted: bool)
    requires ActsOnPlay(pc) && Returns(pc)
    ensures StepOf(g, p, user, pc, newVersion, accepted) == Done(Failed) <==> IsFailing(g, p, pc)
  {
  }

  lemma GameFailsIff(g: Game, p: Play, user: string, pc: Pc, newVersion: Uuid, accepted: bool)
    requires !ActsOnPlay(pc) && !pc.Done?
    ensures StepOf(g, p, user, pc, newVersion, accepted) == Done(Failed) <==> IsFailing(g, p, pc)
  {
  }

  // --- In runs ---

  /** A call that made a missing draft is past finding it missing. */
  predicate Repaired(p: Play, pc: Pc) {
    && ((pc.Checking? || pc.EditingDraft?) && pc.repaired ==> pc.version in p.versions)
    && (pc.CreatingDraft? && pc.back.Some? ==>
          (pc.back.value.Checking? || pc.back.value.EditingDraft?) && pc.back.value.version == pc.version)
  }

  predicate AllRepaired(s: System) { forall id :: id in s.calls ==> Repaired(s.play, s.calls[id].pc) }

  lemma PlayActRepairs(g: Game, p: Play, user: string, pc: Pc, newVersion: Uuid, accepted: bool)
    requires Repaired(p, pc) && ActsOnPlay(pc)
    ensures var (h, q, to) := Act(g, p, user, pc, newVersion, accepted);
            Repaired(q, to) && forall v :: v in p.versions ==> v in q.versions
  {
  }

  lemma GameActRepairs(g: Game, p: Play, user: string, pc: Pc, newVersion: Uuid, accepted: bool)
    requires Repaired(p, pc) && !ActsOnPlay(pc)
    ensures var (h, q, to) := Act(g, p, user, pc, newVersion, accepted); Repaired(q, to) && q == p
  {
  }

  lemma EventRepairs(s: System, e: Event)
    requires AllRepaired(s) && Enabled(s, e)
    ensures AllRepaired(After(s, e))
  {
    if e.Acts? {
      var c := s.calls[e.id];
      if ActsOnPlay(c.pc) {
        PlayActRepairs(s.game, s.play, c.user, c.pc, e.newVersion, e.accepted);
      } else {
        GameActRepairs(s.game, s.play, c.user, c.pc, e.newVersion, e.accepted);
      }
    }
  }

  lemma {:induction false} EveryRunRepairs(s: System, events: seq<Event>)
    requires AllRepaired(s) && Runs(s, events)
    ensures AllRepaired(Final(s, events))
    decreases events
  {
    if events != [] {
      EventRepairs(s, events[0]);
      EveryRunRepairs(After(s, events[0]), events[1..]);
    }
  }

  /** In every run, whatever crashes and interleaves: a step of a call fails if and only if
      another call abandoned meanwhile the release it was completing, or the version whose
      draft it creates is frozen; and it never raises an alert. */
  lemma OnlyRacesFail(owner: string, first: Uuid, before: seq<Event>, id: nat, newVersion: Uuid, accepted: bool)
    requires Runs(Initial(owner, first), before) && RunUndisturbed(Initial(owner, first), before)
    requires var s := Final(Initial(owner, first), before);
             Enabled(s, Acts(id, newVersion, accepted)) && EventUndisturbed(s, Acts(id, newVersion, accepted))
    ensures var s := Final(Initial(owner, first), before);
            var c := s.calls[id];
            var to := StepOf(s.game, s.play, c.user, c.pc, newVersion, accepted);
            && to != Done(Alerted)
            && (to == Done(Failed) <==>
                  || (c.pc.Completing? && c.pc.release < |s.game.releases| && s.game.releases[c.pc.release].end == Abandoned)
                  || (c.pc.CreatingDraft? && IsFrozen(s.play, c.pc.version)))
  {
    var s := Final(Initial(owner, first), before);
    InitialIsOk(owner, first);
    EveryRunKeepsOk(Initial(owner, first), before);
    EveryRunRepairs(Initial(owner, first), before);
    var c := s.calls[id];
    StepRaces(s.game, s.play, c.user, c.pc, newVersion, accepted);
  }

  lemma StepRaces(g: Game, p: Play, user: string, pc: Pc, newVersion: Uuid, accepted: bool)
    requires Sound(g, p) && PcOk(g, p, pc) && Repaired(p, pc) && Undisturbed(g, user, pc) && !pc.Done?
    requires pc.Opening? ==> !Known(g, newVersion)
    ensures var to := StepOf(g, p, user, pc, newVersion, accepted);
            && to != Done(Alerted)
            && (to == Done(Failed) <==>
                  || (pc.Completing? && pc.release < |g.releases| && g.releases[pc.release].end == Abandoned)
                  || (pc.CreatingDraft? && IsFrozen(p, pc.version)))
  {
    NoStepAlerts(g, p, user, pc, newVersion, accepted);
    FailsIff(g, p, user, pc, newVersion, accepted);
    SoundFailsIff(g, p, pc);
  }

  lemma NoStepAlerts(g: Game, p: Play, user: string, pc: Pc, newVersion: Uuid, accepted: bool)
    requires Sound(g, p) && PcOk(g, p, pc) && Undisturbed(g, user, pc) && (pc.Opening? ==> !Known(g, newVersion))
    ensures StepOf(g, p, user, pc, newVersion, accepted) != Done(Alerted)
  {
    ActKeeps(g, p, user, pc, newVersion, accepted);
    KeptIsNoAlert(g, p, Act(g, p, user, pc, newVersion, accepted).0, Act(g, p, user, pc, newVersion, accepted).1,
                  StepOf(g, p, user, pc, newVersion, accepted));
  }

  lemma KeptIsNoAlert(g: Game, p: Play, h: Game, q: Play, to: Pc)
    requires Publication.Kept(g, p, h, q, to)
    ensures to != Done(Alerted)
  {
  }

  lemma SoundFailsIff(g: Game, p: Play, pc: Pc)
    requires Sound(g, p) && PcOk(g, p, pc) && Repaired(p, pc)
    ensures IsFailing(g, p, pc) <==>
              || (pc.Completing? && pc.release < |g.releases| && g.releases[pc.release].end == Abandoned)
              || (pc.CreatingDraft? && IsFrozen(p, pc.version))
  {
    if pc.Freezing? { FreezeKeeps(g, p, pc.release); }
  }
}
