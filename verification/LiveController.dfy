/** The live connections of one instance: how many it holds room for, in all and by caller,
    and how it stops (api/internal/live/controller.go). Each method is one critical section. */
module LiveController {

  const DEFAULT_MAX_CONNECTIONS := 2000
  const MAX_CONNECTIONS_PER_CALLER := 10
  const MAX_REFUSALS := 100
  const MAX_REFUSALS_PER_CALLER := 2

  datatype Reserved = Release(ticket: nat) | InstanceFull | CallerFull

  /** One release function handed out, and whether it already ran. */
  datatype Ticket = Ticket(caller: string, released: bool)

  // --- What the tickets hold ---

  function Held(tickets: seq<Ticket>): (n: nat) {
    if tickets == [] then 0 else Held(tickets[..|tickets| - 1]) + if tickets[|tickets| - 1].released then 0 else 1
  }

  function HeldBy(tickets: seq<Ticket>, caller: string): (n: nat) {
    if tickets == [] then 0
    else
      var last := tickets[|tickets| - 1];
      HeldBy(tickets[..|tickets| - 1], caller) + if !last.released && last.caller == caller then 1 else 0
  }

  lemma HeldGrows(tickets: seq<Ticket>, caller: string)
    ensures Held(tickets + [Ticket(caller, false)]) == Held(tickets) + 1
    ensures forall other :: HeldBy(tickets + [Ticket(caller, false)], other) == HeldBy(tickets, other) + if other == caller then 1 else 0
  {
    assert (tickets + [Ticket(caller, false)])[..|tickets|] == tickets;
  }

  function Released(tickets: seq<Ticket>, i: nat): seq<Ticket>
    requires i < |tickets|
  {
    tickets[i := tickets[i].(released := true)]
  }

  lemma {:induction false} HeldFalls(tickets: seq<Ticket>, i: nat)
    requires i < |tickets| && !tickets[i].released
    ensures Held(Released(tickets, i)) == Held(tickets) - 1
  {
    var last := |tickets| - 1;
    if i == last {
      assert Released(tickets, i)[..last] == tickets[..last];
    } else {
      assert Released(tickets, i)[..last] == Released(tickets[..last], i);
      HeldFalls(tickets[..last], i);
    }
  }

  lemma {:induction false} HeldByFalls(tickets: seq<Ticket>, i: nat, caller: string)
    requires i < |tickets| && !tickets[i].released
    ensures HeldBy(Released(tickets, i), caller) == HeldBy(tickets, caller) - if tickets[i].caller == caller then 1 else 0
  {
    var last := |tickets| - 1;
    if i == last {
      assert Released(tickets, i)[..last] == tickets[..last];
    } else {
      assert Released(tickets, i)[..last] == Released(tickets[..last], i);
      HeldByFalls(tickets[..last], i, caller);
    }
  }

  /** The counts kept are those of the tickets not yet released; a caller with none has no entry. */
  ghost predicate Counts(tickets: seq<Ticket>, total: int, per: map<string, int>) {
    && total == Held(tickets)
    && forall caller :: (caller in per <==> HeldBy(tickets, caller) > 0) && (caller in per ==> per[caller] == HeldBy(tickets, caller))
  }

  predicate Within(total: int, per: map<string, int>, limit: int, callerLimit: int) {
    total <= limit && forall caller :: caller in per ==> per[caller] <= callerLimit
  }

  /** The per-caller counts add up to the total. */
  ghost function Sum(per: map<string, int>): int {
    if per == map[] then 0
    else
      var caller :| caller in per;
      per[caller] + Sum(per - {caller})
  }

  lemma {:induction false} SumWithout(per: map<string, int>, caller: string)
    requires caller in per
    ensures Sum(per) == per[caller] + Sum(per - {caller})
    decreases |per|
  {
    var first :| first in per && Sum(per) == per[first] + Sum(per - {first});
    if first != caller {
      SumWithout(per - {first}, caller);
      SumWithout(per - {caller}, first);
      assert per - {first} - {caller} == per - {caller} - {first};
    }
  }

  lemma SumChanges(per: map<string, int>, caller: string, n: int)
    ensures Sum(per[caller := n]) == Sum(per - {caller}) + n
  {
    SumWithout(per[caller := n], caller);
    assert per[caller := n] - {caller} == per - {caller};
  }

  lemma {:induction false} CountsAddUp(tickets: seq<Ticket>, total: int, per: map<string, int>)
    requires Counts(tickets, total, per)
    ensures total == Sum(per)
  {
    if tickets == [] {
      assert per == map[];
    } else {
      var front, last := tickets[..|tickets| - 1], tickets[|tickets| - 1];
      if last.released {
        CountsAddUp(front, total, per);
      } else {
        var n := HeldBy(front, last.caller);
        SumWithout(per, last.caller);
        if n == 0 {
          CountsAddUp(front, total - 1, per - {last.caller});
        } else {
          CountsAddUp(front, total - 1, per[last.caller := n]);
          SumChanges(per, last.caller, n);
        }
      }
    }
  }

  lemma CountsGrow(tickets: seq<Ticket>, total: int, per: map<string, int>, caller: string)
    requires Counts(tickets, total, per)
    ensures Counts(tickets + [Ticket(caller, false)], total + 1, per[caller := (if caller in per then per[caller] else 0) + 1])
  {
    HeldGrows(tickets, caller);
  }

  /** A count that falls to none leaves no entry behind. */
  function Without(per: map<string, int>, caller: string): map<string, int> {
    if caller in per && per[caller] > 1 then per[caller := per[caller] - 1] else per - {caller}
  }

  lemma CountsFall(tickets: seq<Ticket>, total: int, per: map<string, int>, i: nat)
    requires Counts(tickets, total, per) && i < |tickets| && !tickets[i].released
    ensures tickets[i].caller in per
    ensures Counts(Released(tickets, i), total - 1, Without(per, tickets[i].caller))
  {
    HeldFalls(tickets, i);
    forall caller
      ensures HeldBy(Released(tickets, i), caller) == HeldBy(tickets, caller) - if tickets[i].caller == caller then 1 else 0
    {
      HeldByFalls(tickets, i, caller);
    }
    assert HeldBy(tickets, tickets[i].caller) > 0;
  }

  // --- Stopping ---

  /** Whether Shutdown began, how many connections run, and whether some Shutdown returned nil. */
  datatype Life = Life(stopping: bool, running: nat, ended: bool)

  /** A Shutdown returns nil when its wait finds none running; it may also give up. */
  datatype Event = Serves | Ends | Stops | ReturnsNil | GivesUp

  function Lives(l: Life, e: Event): Life {
    match e
    case Serves => if l.stopping then l else l.(running := l.running + 1)
    case Ends => if l.running > 0 then l.(running := l.running - 1) else l
    case Stops => l.(stopping := true)
    case ReturnsNil => if l.stopping && l.running == 0 then l.(ended := true) else l
    case GivesUp => l
  }

  function Run(l: Life, events: seq<Event>): Life
    decreases |events|
  {
    if events == [] then l else Run(Lives(l, events[0]), events[1..])
  }

  lemma {:induction false} StoppedStays(l: Life, events: seq<Event>)
    requires l.stopping
    ensures Run(l, events).stopping && Run(l, events).running <= l.running
    decreases |events|
  {
    if events != [] {
      StoppedStays(Lives(l, events[0]), events[1..]);
    }
  }

  /** Once Shutdown began, nothing starts and the running connections only become fewer. */
  lemma StoppedOnlyEmpties(l: Life, events: seq<Event>)
    ensures var stopped := Lives(l, Stops);
            stopped.running == l.running && Run(stopped, events).stopping && Run(stopped, events).running <= l.running
  {
    StoppedStays(Lives(l, Stops), events);
  }

  /** How many connections were started, and how many ended. */
  function Started(l: Life, events: seq<Event>): nat
    decreases |events|
  {
    if events == [] then 0 else (if events[0].Serves? && !l.stopping then 1 else 0) + Started(Lives(l, events[0]), events[1..])
  }

  function Over(l: Life, events: seq<Event>): nat
    decreases |events|
  {
    if events == [] then 0 else (if events[0].Ends? && l.running > 0 then 1 else 0) + Over(Lives(l, events[0]), events[1..])
  }

  /** Those running are those started, refused ones not among them, that have not ended. */
  lemma {:induction false} RunningAddsUp(l: Life, events: seq<Event>)
    ensures Run(l, events).running == l.running + Started(l, events) - Over(l, events)
    decreases |events|
  {
    if events != [] {
      RunningAddsUp(Lives(l, events[0]), events[1..]);
    }
  }

  /** A Shutdown that returned nil left no connection running, then and ever after. */
  lemma {:induction false} NilShutdownLeavesNone(l: Life, events: seq<Event>)
    requires l.ended ==> l.stopping && l.running == 0
    ensures var z := Run(l, events); z.ended ==> z.stopping && z.running == 0
    decreases |events|
  {
    if events != [] {
      NilShutdownLeavesNone(Lives(l, events[0]), events[1..]);
    }
  }

  // --- The whole controller, over any sequence of calls ---

  /** What a controller is to its callers: its limit, the release functions handed out, and
      whether it is stopping. */
  datatype Instance = Instance(limit: int, reservations: seq<Ticket>, refusals: seq<Ticket>, life: Life)

  datatype Call =
    | Reserving(caller: string)
    | Releasing(ticket: nat)
    | ReservingRefusal(caller: string)
    | ReleasingRefusal(ticket: nat)
    | Living(event: Event)

  predicate HasRoom(tickets: seq<Ticket>, limit: int, callerLimit: int, caller: string) {
    Held(tickets) < limit && HeldBy(tickets, caller) < callerLimit
  }

  function Taken(tickets: seq<Ticket>, limit: int, callerLimit: int, caller: string): seq<Ticket> {
    if HasRoom(tickets, limit, callerLimit, caller) then tickets + [Ticket(caller, false)] else tickets
  }

  function GivenBack(tickets: seq<Ticket>, ticket: nat): seq<Ticket> {
    if ticket < |tickets| then Released(tickets, ticket) else tickets
  }

  function After(c: Instance, call: Call): Instance {
    match call
    case Reserving(caller) => c.(reservations := Taken(c.reservations, c.limit, MAX_CONNECTIONS_PER_CALLER, caller))
    case Releasing(ticket) => c.(reservations := GivenBack(c.reservations, ticket))
    case ReservingRefusal(caller) => c.(refusals := Taken(c.refusals, MAX_REFUSALS, MAX_REFUSALS_PER_CALLER, caller))
    case ReleasingRefusal(ticket) => c.(refusals := GivenBack(c.refusals, ticket))
    case Living(event) => c.(life := Lives(c.life, event))
  }

  function RunOf(c: Instance, calls: seq<Call>): Instance
    decreases |calls|
  {
    if calls == [] then c else RunOf(After(c, calls[0]), calls[1..])
  }

  ghost predicate Fits(tickets: seq<Ticket>, limit: int, callerLimit: int) {
    Held(tickets) <= limit && forall caller :: HeldBy(tickets, caller) <= callerLimit
  }

  ghost predicate Kept(c: Instance) {
    && Fits(c.reservations, c.limit, MAX_CONNECTIONS_PER_CALLER) && Fits(c.refusals, MAX_REFUSALS, MAX_REFUSALS_PER_CALLER)
    && (c.life.ended ==> c.life.stopping && c.life.running == 0)
  }

  /** What the counts kept say of the room left is what the tickets do. */
  lemma CountsTellRoom(tickets: seq<Ticket>, total: int, per: map<string, int>, limit: int, callerLimit: int, caller: string)
    requires Counts(tickets, total, per) && Within(total, per, limit, callerLimit)
    ensures HeldBy(tickets, caller) == if caller in per then per[caller] else 0
    ensures HasRoom(tickets, limit, callerLimit, caller) ==>
              var taken := per[caller := HeldBy(tickets, caller) + 1];
              Counts(tickets + [Ticket(caller, false)], total + 1, taken) && Within(total + 1, taken, limit, callerLimit)
  {
    CountsGrow(tickets, total, per, caller);
  }

  lemma TakingFits(tickets: seq<Ticket>, limit: int, callerLimit: int, caller: string)
    requires Fits(tickets, limit, callerLimit)
    ensures Fits(Taken(tickets, limit, callerLimit, caller), limit, callerLimit)
  {
    HeldGrows(tickets, caller);
  }

  lemma GivingBackFits(tickets: seq<Ticket>, limit: int, callerLimit: int, ticket: nat)
    requires Fits(tickets, limit, callerLimit)
    ensures Fits(GivenBack(tickets, ticket), limit, callerLimit)
  {
    if ticket < |tickets| {
      if tickets[ticket].released {
        assert Released(tickets, ticket) == tickets;
      } else {
        HeldFalls(tickets, ticket);
        forall caller
          ensures HeldBy(Released(tickets, ticket), caller) <= callerLimit
        {
          HeldByFalls(tickets, ticket, caller);
        }
      }
    }
  }

  /** Over any sequence of reservations, releases however repeated, refusals, connections
      started and ended, and shutdowns: both pairs of limits hold, a nil Shutdown left no
      connection running, and once stopping the running ones only become fewer. */
  lemma {:induction false} EveryRunKeepsRoom(c: Instance, calls: seq<Call>)
    requires Kept(c)
    ensures var z := RunOf(c, calls);
            && Kept(z) && z.limit == c.limit
            && (c.life.stopping ==> z.life.stopping && z.life.running <= c.life.running)
    decreases |calls|
  {
    if calls != [] {
      match calls[0] {
        case Reserving(caller) => TakingFits(c.reservations, c.limit, MAX_CONNECTIONS_PER_CALLER, caller);
        case Releasing(ticket) => GivingBackFits(c.reservations, c.limit, MAX_CONNECTIONS_PER_CALLER, ticket);
        case ReservingRefusal(caller) => TakingFits(c.refusals, MAX_REFUSALS, MAX_REFUSALS_PER_CALLER, caller);
        case ReleasingRefusal(ticket) => GivingBackFits(c.refusals, MAX_REFUSALS, MAX_REFUSALS_PER_CALLER, ticket);
        case Living(_) =>
      }
      EveryRunKeepsRoom(After(c, calls[0]), calls[1..]);
    }
  }

  class Controller {
    var stopping: bool
    var running: nat
    const maxConnections: int
    var reserved: int
    var reservedBy: map<string, int>
    var refusing: int
    var refusingBy: map<string, int>

    /** The release functions handed out, each of which runs once. */
    var reservations: seq<Ticket>
    var refusals: seq<Ticket>

    ghost predicate Valid()
      reads this
    {
      && maxConnections > 0
      && Counts(reservations, reserved, reservedBy) && Within(reserved, reservedBy, maxConnections, MAX_CONNECTIONS_PER_CALLER)
      && Counts(refusals, refusing, refusingBy) && Within(refusing, refusingBy, MAX_REFUSALS, MAX_REFUSALS_PER_CALLER)
    }

    /** What the fields are to a caller; ended says whether some Shutdown returned nil. */
    ghost function State(ended: bool): Instance
      reads this
    {
      Instance(maxConnections, reservations, refusals, Life(stopping, running, ended))
    }

    constructor (limit: int)
      ensures Valid() && Kept(State(false)) && !stopping && running == 0 && reservations == [] && refusals == []
      ensures maxConnections == if limit <= 0 then DEFAULT_MAX_CONNECTIONS else limit
    {
      maxConnections := if limit <= 0 then DEFAULT_MAX_CONNECTIONS else limit;
      stopping, running := false, 0;
      reserved, reservedBy, refusing, refusingBy := 0, map[], 0, map[];
      reservations, refusals := [], [];
    }

    /** Refused exactly when the instance, or else the caller, holds all the room it may. */
    method Reserve(caller: string) returns (r: Reserved)
      requires Valid()
      modifies `reserved, `reservedBy, `reservations
      ensures Valid()
      ensures forall ended :: State(ended) == After(old(State(ended)), Reserving(caller))
      ensures r.InstanceFull? <==> Held(old(reservations)) >= maxConnections
      ensures r.CallerFull? <==>
                Held(old(reservations)) < maxConnections && HeldBy(old(reservations), caller) >= MAX_CONNECTIONS_PER_CALLER
      ensures r.Release? ==> r.ticket == |old(reservations)| && reservations == old(reservations) + [Ticket(caller, false)]
      ensures !r.Release? ==> reservations == old(reservations)
    {
      if reserved >= maxConnections {
        return InstanceFull;
      }
      CountsTellRoom(reservations, reserved, reservedBy, maxConnections, MAX_CONNECTIONS_PER_CALLER, caller);
      var count := if caller in reservedBy then reservedBy[caller] else 0;
      if count >= MAX_CONNECTIONS_PER_CALLER {
        return CallerFull;
      }
      reserved := reserved + 1;
      reservedBy := reservedBy[caller := count + 1];
      r := Release(|reservations|);
      reservations := reservations + [Ticket(caller, false)];
    }

    /** A release function, which gives its room back once however often it is called. */
    method ReleaseReservation(ticket: nat)
      requires Valid() && ticket < |reservations|
      modifies `reserved, `reservedBy, `reservations
      ensures Valid() && reservations == Released(old(reservations), ticket)
      ensures forall ended :: State(ended) == After(old(State(ended)), Releasing(ticket))
      ensures old(reservations)[ticket].released ==> reserved == old(reserved) && reservedBy == old(reservedBy)
    {
      if !reservations[ticket].released {
        var caller := reservations[ticket].caller;
        CountsFall(reservations, reserved, reservedBy, ticket);
        reserved := reserved - 1;
        reservedBy := reservedBy[caller := reservedBy[caller] - 1];
        if reservedBy[caller] == 0 {
          reservedBy := reservedBy - {caller};
        }
        assert reservedBy == Without(old(reservedBy), caller);
        reservations := Released(reservations, ticket);
      } else {
        assert Released(reservations, ticket) == reservations;
      }
    }

    /** Room to tell a caller it was refused, which no reservation takes and none gives. */
    method ReserveRefusal(caller: string) returns (ticket: nat, ok: bool)
      requires Valid()
      modifies `refusing, `refusingBy, `refusals
      ensures Valid()
      ensures forall ended :: State(ended) == After(old(State(ended)), ReservingRefusal(caller))
      ensures ok <==> Held(old(refusals)) < MAX_REFUSALS && HeldBy(old(refusals), caller) < MAX_REFUSALS_PER_CALLER
      ensures ok ==> ticket == |old(refusals)| && refusals == old(refusals) + [Ticket(caller, false)]
      ensures !ok ==> refusals == old(refusals)
    {
      CountsTellRoom(refusals, refusing, refusingBy, MAX_REFUSALS, MAX_REFUSALS_PER_CALLER, caller);
      var count := if caller in refusingBy then refusingBy[caller] else 0;
      if refusing >= MAX_REFUSALS || count >= MAX_REFUSALS_PER_CALLER {
        return 0, false;
      }
      refusing := refusing + 1;
      refusingBy := refusingBy[caller := count + 1];
      ticket, ok := |refusals|, true;
      refusals := refusals + [Ticket(caller, false)];
    }

    method ReleaseRefusal(ticket: nat)
      requires Valid() && ticket < |refusals|
      modifies `refusing, `refusingBy, `refusals
      ensures Valid() && refusals == Released(old(refusals), ticket)
      ensures forall ended :: State(ended) == After(old(State(ended)), ReleasingRefusal(ticket))
      ensures old(refusals)[ticket].released ==> refusing == old(refusing) && refusingBy == old(refusingBy)
    {
      if !refusals[ticket].released {
        var caller := refusals[ticket].caller;
        CountsFall(refusals, refusing, refusingBy, ticket);
        refusing := refusing - 1;
        refusingBy := refusingBy[caller := refusingBy[caller] - 1];
        if refusingBy[caller] == 0 {
          refusingBy := refusingBy - {caller};
        }
        assert refusingBy == Without(old(refusingBy), caller);
        refusals := Released(refusals, ticket);
      } else {
        assert Released(refusals, ticket) == refusals;
      }
    }

    /** start: a connection is run, or refused once Shutdown began. */
    method Start() returns (started: bool)
      modifies `running
      ensures started == !stopping && running == old(running) + if started then 1 else 0
      ensures forall ended :: State(ended) == After(old(State(ended)), Living(Serves))
    {
      if stopping {
        return false;
      }
      running := running + 1;
      return true;
    }

    /** A connection's goroutine ends. */
    method Done()
      requires running > 0
      modifies `running
      ensures running == old(running) - 1
      ensures forall ended :: State(ended) == After(old(State(ended)), Living(Ends))
    {
      running := running - 1;
    }

    /** Shutdown up to its wait, which returns nil at once when none is running. */
    method BeginShutdown() returns (none: bool)
      modifies `stopping
      ensures stopping && (none <==> running == 0)
      ensures State(none) == After(After(old(State(false)), Living(Stops)), Living(ReturnsNil))
    {
      stopping := true;
      none := running == 0;
    }
  }

  /** Over any calls, each caller's reservations add up to the instance's, both limits hold,
      and refusals use room of their own. */
  lemma RoomIsKept(c: Controller)
    requires c.Valid()
    ensures c.reserved == Sum(c.reservedBy) == Held(c.reservations) <= c.maxConnections
    ensures c.refusing == Sum(c.refusingBy) == Held(c.refusals) <= MAX_REFUSALS
    ensures forall caller :: HeldBy(c.reservations, caller) <= MAX_CONNECTIONS_PER_CALLER
                          && HeldBy(c.refusals, caller) <= MAX_REFUSALS_PER_CALLER
    ensures forall caller :: caller in c.reservedBy ==> c.reservedBy[caller] > 0
    ensures forall caller :: caller in c.refusingBy ==> c.refusingBy[caller] > 0
  {
    CountsAddUp(c.reservations, c.reserved, c.reservedBy);
    CountsAddUp(c.refusals, c.refusing, c.refusingBy);
  }
}
