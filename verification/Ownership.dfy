/** The calls of users who do not own the game: what they are answered, and that nothing in
    either store shows that they were made (orchestrator/gameauthoring, game/usecases). */
module Ownership {
  import opened Options
  import opened GameLifecycle
  import opened PlayVersions
  import opened Publication
  import opened PublicationRecovery

  // --- One such call, run alone ---

  function Refusal(pc: Pc): Answer {
    if pc.Resuming? && pc.goal.ToOpen? then OpeningAnswered(OpeningNotFound) else EditableRefused(EditableNotFound)
  }

  /** Publishing, opening an edition, editing or ensuring the draft of somebody else's game
      is answered not found, and leaves both stores as they were, pending release included. */
  lemma StrangerIsRefused(g: Game, p: Play, user: string, pc: Pc, newVersion: Uuid, accepted: bool)
    requires user != g.owner && (pc.Resuming? || pc == Ensuring)
    ensures Alone(g, p, user, pc, newVersion, accepted) == (g, p, Refusal(pc))
  {
    var answer := Done(Refusal(pc));
    if pc == Ensuring {
      assert Alone(g, p, user, pc, newVersion, accepted) == Alone(g, p, user, answer, newVersion, accepted);
    } else {
      assert Alone(g, p, user, pc, newVersion, accepted) == Alone(g, p, user, Begin(pc.goal), newVersion, accepted);
      BegunIsRefused(g, p, user, pc.goal, newVersion, accepted);
    }
  }

  lemma BegunIsRefused(g: Game, p: Play, user: string, goal: Goal, newVersion: Uuid, accepted: bool)
    requires user != g.owner
    ensures Alone(g, p, user, Begin(goal), newVersion, accepted) == (g, p, Refusal(Resuming(goal)))
  {
    var answer := Done(Refusal(Resuming(goal)));
    if goal.ToPublish? {
      assert Alone(g, p, user, Begin(goal), newVersion, accepted)
          == Alone(g, p, user, FindingEditable(goal), newVersion, accepted)
          == Alone(g, p, user, answer, newVersion, accepted);
    } else {
      assert Alone(g, p, user, Begin(goal), newVersion, accepted) == Alone(g, p, user, answer, newVersion, accepted);
    }
  }

  // --- Among all the others ---

  /** Where a call of somebody who does not own the game can stand: it reads until it is
      refused. */
  predicate StrangersPc(pc: Pc) {
    || pc.Resuming? || pc.FindingByKey? || pc.FindingEditable? || pc.Ensuring? || pc.Opening?
    || pc == Done(OpeningAnswered(OpeningNotFound)) || pc == Done(EditableRefused(EditableNotFound))
  }

  predicate StrangersRead(s: System) {
    forall id :: id in s.calls && s.calls[id].user != s.game.owner ==> StrangersPc(s.calls[id].pc)
  }

  lemma StrangerActs(g: Game, p: Play, user: string, pc: Pc, newVersion: Uuid, accepted: bool)
    requires user != g.owner && StrangersPc(pc)
    ensures var (h, q, to) := Act(g, p, user, pc, newVersion, accepted); h == g && q == p && StrangersPc(to)
  {
  }

  lemma OwnerStays(g: Game, p: Play, user: string, pc: Pc, newVersion: Uuid, accepted: bool)
    ensures Act(g, p, user, pc, newVersion, accepted).0.owner == g.owner
  {
  }

  lemma EventKeepsStrangers(s: System, e: Event)
    requires StrangersRead(s) && Enabled(s, e)
    ensures var t := After(s, e); StrangersRead(t) && t.game.owner == s.game.owner
    ensures IsStrangers(s, e) ==> After(s, e).game == s.game && After(s, e).play == s.play
  {
    if e.Acts? {
      var c := s.calls[e.id];
      OwnerStays(s.game, s.play, c.user, c.pc, e.newVersion, e.accepted);
      if c.user != s.game.owner { StrangerActs(s.game, s.play, c.user, c.pc, e.newVersion, e.accepted); }
    }
  }

  /** An event of a call whose user does not own the game. */
  predicate IsStrangers(s: System, e: Event) {
    match e
    case Arrives(_, call) => call.user != s.game.owner
    case Acts(id, _, _) => id in s.calls && s.calls[id].user != s.game.owner
    case Crashes(id) => id in s.calls && s.calls[id].user != s.game.owner
    case _ => false
  }

  /** In every run, whatever else happens: a call on somebody else's game ends refused as not
      found, and no step of it changes either store. */
  lemma {:induction false} StrangersAreRefused(s: System, events: seq<Event>)
    requires StrangersRead(s) && Runs(s, events)
    ensures var t := Final(s, events);
            && StrangersRead(t) && t.game.owner == s.game.owner
            && forall e :: Enabled(t, e) && IsStrangers(t, e) ==> After(t, e).game == t.game && After(t, e).play == t.play
    decreases events
  {
    if events == [] {
      forall e | Enabled(s, e) && IsStrangers(s, e)
        ensures After(s, e).game == s.game && After(s, e).play == s.play
      {
        EventKeepsStrangers(s, e);
      }
    } else {
      EventKeepsStrangers(s, events[0]);
      StrangersAreRefused(After(s, events[0]), events[1..]);
    }
  }

  // --- As if they had never called ---

  /** The system without the calls of others. */
  function Owned(s: System): System {
    s.(calls := map id | id in s.calls && s.calls[id].user == s.game.owner :: s.calls[id])
  }

  /** events without those of others' calls. */
  function OwnedEvents(s: System, events: seq<Event>): seq<Event>
    requires Runs(s, events)
    decreases events
  {
    if events == [] then []
    else (if IsStrangers(s, events[0]) then [] else [events[0]]) + OwnedEvents(After(s, events[0]), events[1..])
  }

  lemma StrangersEventIsUnseen(s: System, e: Event)
    requires StrangersRead(s) && Enabled(s, e) && IsStrangers(s, e)
    ensures Owned(After(s, e)) == Owned(s)
  {
    EventKeepsStrangers(s, e);
    assert Owned(After(s, e)).calls == Owned(s).calls;
  }

  lemma OwnedEventIsSeen(s: System, e: Event)
    requires StrangersRead(s) && Enabled(s, e) && !IsStrangers(s, e)
    ensures Enabled(Owned(s), e) && After(Owned(s), e) == Owned(After(s, e))
  {
    EventKeepsStrangers(s, e);
    assert After(Owned(s), e).calls == Owned(After(s, e)).calls;
  }

  /** Noninterference: leaving out every event of the calls of users who do not own the game
      leaves a run, which ends with the same stores and the owner's calls where they were. */
  lemma {:induction false} StrangersLeaveNoTrace(s: System, events: seq<Event>)
    requires StrangersRead(s) && Runs(s, events)
    ensures var owned := OwnedEvents(s, events); Runs(Owned(s), owned) && Final(Owned(s), owned) == Owned(Final(s, events))
    decreases events
  {
    if events != [] {
      var e, t := events[0], After(s, events[0]);
      EventKeepsStrangers(s, e);
      StrangersLeaveNoTrace(t, events[1..]);
      var rest := OwnedEvents(t, events[1..]);
      if IsStrangers(s, e) {
        StrangersEventIsUnseen(s, e);
        assert [] + rest == rest;
      } else {
        OwnedEventIsSeen(s, e);
        assert ([e] + rest)[0] == e && ([e] + rest)[1..] == rest;
      }
    }
  }

  lemma NobodyCalledYet(owner: string, version: Uuid)
    ensures StrangersRead(Initial(owner, version)) && Owned(Initial(owner, version)) == Initial(owner, version)
  {
  }
}
