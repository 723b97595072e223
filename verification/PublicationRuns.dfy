/** Runs of the publication calls put together one event at a time, and what no run should
    leave behind. */
module PublicationRuns {
  import opened Options
  import opened GameLifecycle
  import opened PlayVersions
  import opened Publication

  /** A version is frozen, its edition is open, and no release is being published. */
  predicate Stranded(s: System) {
    && !HasPending(s.game)
    && exists i :: 0 <= i < |s.game.editions| && s.game.editions[i].status == Editing && IsFrozen(s.play, s.game.editions[i].version)
  }

  /** A release was abandoned whose version is frozen at its very revision. */
  predicate WronglyAbandoned(g: Game, p: Play, release: nat) {
    && release < |g.releases| && g.releases[release].end == Abandoned && g.releases[release].edition < |g.editions|
    && FrozenAt(p, VersionOf(g, release), g.releases[release].revision)
  }

  ghost predicate Harmed(s: System) { Stranded(s) || exists release: nat :: WronglyAbandoned(s.game, s.play, release) }

  ghost predicate Reached(s: System, t: System) { exists events :: Runs(s, events) && Final(s, events) == t }

  ghost predicate UndisturbedTo(s: System, t: System, events: seq<Event>) {
    Runs(s, events) && RunUndisturbed(s, events) && Final(s, events) == t
  }

  /** Reached with no edition opened between any call's check and its begin. */
  ghost predicate Leads(s: System, t: System) { exists events :: UndisturbedTo(s, t, events) }

  lemma {:induction false} RunsOn(s: System, a: seq<Event>, b: seq<Event>)
    requires Runs(s, a) && Runs(Final(s, a), b)
    ensures Runs(s, a + b) && Final(s, a + b) == Final(Final(s, a), b)
    ensures RunUndisturbed(s, a) && RunUndisturbed(Final(s, a), b) ==> RunUndisturbed(s, a + b)
    decreases a
  {
    if a == [] {
      assert a + b == b;
    } else {
      assert (a + b)[0] == a[0] && (a + b)[1..] == a[1..] + b;
      RunsOn(After(s, a[0]), a[1..], b);
    }
  }

  lemma OneEvent(s: System, e: Event)
    requires Enabled(s, e)
    ensures Runs(s, [e]) && Final(s, [e]) == After(s, e)
    ensures EventUndisturbed(s, e) ==> RunUndisturbed(s, [e])
  {
    var t := After(s, e);
    assert [e][1..] == [] && Runs(t, []) && Final(t, []) == t && RunUndisturbed(t, []);
  }

  lemma OneMore(s: System, t: System, e: Event)
    requires Reached(s, t) && Enabled(t, e)
    ensures Reached(s, After(t, e))
  {
    var events :| Runs(s, events) && Final(s, events) == t;
    OneEvent(t, e);
    RunsOn(s, events, [e]);
  }

  lemma LeadsToItself(s: System)
    ensures Leads(s, s)
  {
    assert UndisturbedTo(s, s, []);
  }

  lemma LeadsOn(s: System, t: System, e: Event)
    requires Leads(s, t) && Enabled(t, e) && EventUndisturbed(t, e)
    ensures Leads(s, After(t, e))
  {
    var events :| UndisturbedTo(s, t, events);
    OneEvent(t, e);
    RunsOn(s, events, [e]);
    assert UndisturbedTo(s, After(t, e), events + [e]);
  }

  // --- One call's events ---

  function Calling(calls: map<nat, Call>, id: nat, user: string, pc: Pc): map<nat, Call> { calls[id := Call(user, pc)] }

  lemma Arriving(s: System, t: System, id: nat, user: string, pc: Pc)
    requires Leads(s, t) && id !in t.calls && IsArrival(t.game, Call(user, pc))
    ensures Leads(s, t.(calls := Calling(t.calls, id, user, pc)))
  {
    LeadsOn(s, t, Arrives(id, Call(user, pc)));
  }

  lemma Acting(s: System, g: Game, p: Play, calls: map<nat, Call>, id: nat, user: string, pc: Pc, accepted: bool)
    requires Leads(s, System(g, p, Calling(calls, id, user, pc)))
    requires !pc.Done? && !pc.Opening? && Undisturbed(g, user, pc)
    ensures var (h, q, to) := Act(g, p, user, pc, 0, accepted); Leads(s, System(h, q, Calling(calls, id, user, to)))
  {
    var t := System(g, p, Calling(calls, id, user, pc));
    LeadsOn(s, t, Acts(id, 0, accepted));
    var (h, q, to) := Act(g, p, user, pc, 0, accepted);
    assert Calling(calls, id, user, pc)[id := Call(user, to)] == Calling(calls, id, user, to);
  }

  lemma OpeningActs(s: System, g: Game, p: Play, calls: map<nat, Call>, id: nat, user: string, key: Key, newVersion: Uuid)
    requires Leads(s, System(g, p, Calling(calls, id, user, Opening(key)))) && !Known(g, newVersion)
    ensures var (h, to) := ActOpening(g, user, key, newVersion); Leads(s, System(h, p, Calling(calls, id, user, to)))
  {
    var t := System(g, p, Calling(calls, id, user, Opening(key)));
    LeadsOn(s, t, Acts(id, newVersion, true));
    var (h, to) := ActOpening(g, user, key, newVersion);
    assert Calling(calls, id, user, Opening(key))[id := Call(user, to)] == Calling(calls, id, user, to);
  }

  lemma Leaving(s: System, g: Game, p: Play, calls: map<nat, Call>, id: nat, user: string, pc: Pc)
    requires Leads(s, System(g, p, Calling(calls, id, user, pc))) && id !in calls
    ensures Leads(s, System(g, p, calls))
  {
    LeadsOn(s, System(g, p, Calling(calls, id, user, pc)), Crashes(id));
    assert Calling(calls, id, user, pc) - {id} == calls;
  }

  lemma {:induction false} UnusedId(ids: set<nat>) returns (id: nat)
    ensures forall k: nat :: k in ids ==> k < id
  {
    if ids == {} {
      id := 0;
    } else {
      var k :| k in ids;
      var above := UnusedId(ids - {k});
      id := if k < above then above else k + 1;
      forall j: nat | j in ids
        ensures j < id
      {
        assert j == k || j in ids - {k};
      }
    }
  }
}
