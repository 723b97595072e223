/** Game Management's side of publishing one game: its editions, its releases and the
    requests that opened editions. Every function is one transaction under the game's or
    the release's row lock; rows are numbered by their position. */
module GameLifecycle {
  import opened Options

  type Uuid = nat
  type Key = string


  datatype Visibility = PublicGame | PrivateGame

  datatype EditionStatus = Editing | Published

  /** An edition is built in the Play version of the same uuid. */
  datatype Edition = Edition(version: Uuid, status: EditionStatus)

  datatype ReleaseEnd = Pending | Completed | Abandoned

  datatype Release = Release(edition: nat, revision: nat, visibility: Visibility, key: Key, end: ReleaseEnd)

  datatype Game = Game(
    owner: string,
    named: bool,
    visibility: Visibility,
    published: bool,
    editions: seq<Edition>,
    releases: seq<Release>,
    requests: map<Key, nat>)

  /** What CreateGame inserts: a private game with its first edition open. */
  function NewGame(owner: string, version: Uuid): Game {
    Game(owner, true, PrivateGame, false, [Edition(version, Editing)], [], map[])
  }

  // --- Queries ---

  function LatestEdition(editions: seq<Edition>, status: EditionStatus): (found: Option<nat>)
    ensures found.Some? ==> found.value < |editions| && editions[found.value].status == status
    ensures found.Some? ==> forall i :: found.value < i < |editions| ==> editions[i].status != status
    ensures found.None? ==> forall i :: 0 <= i < |editions| ==> editions[i].status != status
  {
    if editions == [] then None
    else if editions[|editions| - 1].status == status then Some(|editions| - 1)
    else LatestEdition(editions[..|editions| - 1], status)
  }

  function ReleaseByKey(releases: seq<Release>, key: Key): (found: Option<nat>)
    ensures found.Some? ==> found.value < |releases| && releases[found.value].key == key
    ensures found.None? ==> forall i :: 0 <= i < |releases| ==> releases[i].key != key
  {
    if releases == [] then None
    else if releases[|releases| - 1].key == key then Some(|releases| - 1)
    else ReleaseByKey(releases[..|releases| - 1], key)
  }

  function PendingRelease(releases: seq<Release>): (found: Option<nat>)
    ensures found.Some? ==> found.value < |releases| && releases[found.value].end == Pending
    ensures found.None? ==> forall i :: 0 <= i < |releases| ==> releases[i].end != Pending
  {
    if releases == [] then None
    else if releases[|releases| - 1].end == Pending then Some(|releases| - 1)
    else PendingRelease(releases[..|releases| - 1])
  }

  // --- Publications ---

  datatype Publication =
    | NotFound
    | NotEditable
    | NotReady
    | KeyConflict
    | Started(release: nat)
    | PendingFirst(release: nat)
    | EndedCompleted(release: nat)
    | EndedAbandoned(release: nat)

  function EndOf(g: Game, release: nat): Publication
    requires release < |g.releases|
  {
    match g.releases[release].end
    case Completed => EndedCompleted(release)
    case Abandoned => EndedAbandoned(release)
    case Pending => Started(release)
  }

  function BeginPublication(g: Game, user: string, revision: nat, visibility: Visibility, key: Key): (Game, Publication) {
    if user != g.owner then (g, NotFound)
    else match ReleaseByKey(g.releases, key)
      case Some(existing) =>
        if g.releases[existing].visibility != visibility then (g, KeyConflict) else (g, EndOf(g, existing))
      case None =>
        match PendingRelease(g.releases)
        case Some(pending) => (g, PendingFirst(pending))
        case None =>
          match LatestEdition(g.editions, Editing)
          case None => (g, NotEditable)
          case Some(open) =>
            if !g.named then (g, NotReady)
            else (g.(releases := g.releases + [Release(open, revision, visibility, key, Pending)]), Started(|g.releases|))
  }

  /** Ignores the visibility the key was recorded with. */
  function FindPublication(g: Game, user: string, key: Key): Option<Publication> {
    if user != g.owner then None
    else match ReleaseByKey(g.releases, key)
      case None => None
      case Some(existing) => Some(EndOf(g, existing))
  }

  function FindPendingPublication(g: Game, user: string): Option<nat> {
    if user != g.owner then None else PendingRelease(g.releases)
  }

  datatype Completion = ReleaseCompleted | WasAbandoned | EditionNotOpen | NoRelease

  function CompletePublication(g: Game, release: nat): (Game, Completion) {
    if release >= |g.releases| then (g, NoRelease)
    else
      var r := g.releases[release];
      match r.end
      case Completed => (g, ReleaseCompleted)
      case Abandoned => (g, WasAbandoned)
      case Pending =>
        if r.edition >= |g.editions| || g.editions[r.edition].status != Editing then (g, EditionNotOpen)
        else (g.(editions := g.editions[r.edition := g.editions[r.edition].(status := Published)],
                 published := true,
                 visibility := r.visibility,
                 releases := g.releases[release := r.(end := Completed)]), ReleaseCompleted)
  }

  function AbandonPublication(g: Game, release: nat): Game {
    if release >= |g.releases| || g.releases[release].end != Pending then g
    else g.(releases := g.releases[release := g.releases[release].(end := Abandoned)])
  }

  // --- Editions ---

  datatype Opening =
    | OpeningNotFound
    | NotPublished
    | AlreadyOpen(version: Uuid)
    | Publishing
    | Opened(version: Uuid, base: Uuid)
    | BrokenRequest

  function OpenEdition(g: Game, user: string, key: Key, newVersion: Uuid): (Game, Opening) {
    if user != g.owner then (g, OpeningNotFound)
    else
      var base := LatestEdition(g.editions, Published);
      if key in g.requests then
        if g.requests[key] >= |g.editions| || base.None? then (g, BrokenRequest)
        else (g, Opened(g.editions[g.requests[key]].version, g.editions[base.value].version))
      else if !g.published || base.None? then (g, NotPublished)
      else match LatestEdition(g.editions, Editing)
        case Some(open) => (g, AlreadyOpen(g.editions[open].version))
        case None =>
          if PendingRelease(g.releases).Some? then (g, Publishing)
          else (g.(editions := g.editions + [Edition(newVersion, Editing)],
                   requests := g.requests[key := |g.editions|]),
                Opened(newVersion, g.editions[base.value].version))
  }

  datatype Editable = EditableNotFound | EditableNotEditable | EditableFound(version: Uuid, base: Option<Uuid>)

  function FindEditableVersion(g: Game, user: string): Editable {
    if user != g.owner then EditableNotFound
    else match LatestEdition(g.editions, Editing)
      case None => EditableNotEditable
      case Some(open) =>
        var base := LatestEdition(g.editions, Published);
        EditableFound(g.editions[open].version,
                      if base.Some? then Some(g.editions[base.value].version) else None)
  }

  /** Whoever does not own the game, and nobody else, is answered that it was not found, and
      changes nothing. */
  lemma NotFoundIffNotOwner(g: Game, user: string, revision: nat, visibility: Visibility, key: Key, newVersion: Uuid)
    ensures var (begun, answer) := BeginPublication(g, user, revision, visibility, key);
            var (made, opening) := OpenEdition(g, user, key, newVersion);
            && (answer.NotFound? <==> user != g.owner) && (opening.OpeningNotFound? <==> user != g.owner)
            && (FindEditableVersion(g, user).EditableNotFound? <==> user != g.owner)
            && (user != g.owner ==>
                  begun == g && made == g && FindPublication(g, user, key).None? && FindPendingPublication(g, user).None?)
  {
  }

  /** What its owner is answered on opening an edition under a new key: not published while
      no edition was, the open one's version while one is open, publishing while a release
      is, and otherwise the new version with the latest published one as its base. */
  lemma OpeningAnswers(g: Game, key: Key, newVersion: Uuid)
    requires key !in g.requests
    ensures var answer := OpenEdition(g, g.owner, key, newVersion).1;
            var started := g.published && exists i :: 0 <= i < |g.editions| && g.editions[i].status == Published;
            var open := exists i :: 0 <= i < |g.editions| && g.editions[i].status == Editing;
            && (answer.NotPublished? <==> !started)
            && (answer.AlreadyOpen? <==> started && open)
            && (answer.AlreadyOpen? ==> Latest(g.editions, Edition(answer.version, Editing)))
            && (answer.Publishing? <==> started && !open && exists r :: 0 <= r < |g.releases| && g.releases[r].end == Pending)
            && (answer.Opened? ==> answer.version == newVersion && Latest(g.editions, Edition(answer.base, Published)))
            && !answer.BrokenRequest? && !answer.OpeningNotFound?
  {
    var open, base := LatestEdition(g.editions, Editing), LatestEdition(g.editions, Published);
    if open.Some? { assert IsLatest(g.editions, open.value, g.editions[open.value]); }
    if base.Some? { assert IsLatest(g.editions, base.value, g.editions[base.value]); }
  }

  /** e is the newest edition of its status. */
  predicate IsLatest(editions: seq<Edition>, i: nat, e: Edition) {
    i < |editions| && editions[i] == e && forall j :: i < j < |editions| ==> editions[j].status != e.status
  }

  ghost predicate Latest(editions: seq<Edition>, e: Edition) { exists i: nat :: IsLatest(editions, i, e) }

  // --- The store these transactions run on ---

  class GameStore {
    var game: Game

    constructor (game: Game)
      ensures this.game == game
    {
      this.game := game;
    }

    method Begin(user: string, revision: nat, visibility: Visibility, key: Key) returns (answer: Publication)
      modifies this
      ensures (game, answer) == BeginPublication(old(game), user, revision, visibility, key)
    {
      if user != game.owner {
        return NotFound;
      }
      var existing := ReleaseByKey(game.releases, key);
      if existing.Some? {
        if game.releases[existing.value].visibility != visibility {
          return KeyConflict;
        }
        return EndOf(game, existing.value);
      }
      var pending := PendingRelease(game.releases);
      if pending.Some? {
        return PendingFirst(pending.value);
      }
      var open := LatestEdition(game.editions, Editing);
      if open.None? {
        return NotEditable;
      }
      if !game.named {
        return NotReady;
      }
      answer := Started(|game.releases|);
      game := game.(releases := game.releases + [Release(open.value, revision, visibility, key, Pending)]);
    }

    method Complete(release: nat) returns (answer: Completion)
      modifies this
      ensures (game, answer) == CompletePublication(old(game), release)
    {
      if release >= |game.releases| {
        return NoRelease;
      }
      var locked := game.releases[release];
      if locked.end == Completed {
        return ReleaseCompleted;
      }
      if locked.end == Abandoned {
        return WasAbandoned;
      }
      var before := game;
      var changed := ChangeEditionStatus(locked.edition, Editing, Published);
      if !changed {
        return EditionNotOpen;
      }
      game := game.(published := true, visibility := locked.visibility);
      game := game.(releases := game.releases[release := locked.(end := Completed)]);
      return ReleaseCompleted;
    }

    /** A conditional write: false, changing nothing, when the edition is not in from. */
    method ChangeEditionStatus(edition: nat, from: EditionStatus, to: EditionStatus) returns (changed: bool)
      modifies this
      ensures changed == (edition < |old(game).editions| && old(game).editions[edition].status == from)
      ensures changed ==> game == old(game).(editions := old(game).editions[edition := old(game).editions[edition].(status := to)])
      ensures !changed ==> game == old(game)
    {
      changed := edition < |game.editions| && game.editions[edition].status == from;
      if changed {
        game := game.(editions := game.editions[edition := game.editions[edition].(status := to)]);
      }
    }

    method Abandon(release: nat)
      modifies this
      ensures game == AbandonPublication(old(game), release)
    {
      if release < |game.releases| && game.releases[release].end == Pending {
        game := game.(releases := game.releases[release := game.releases[release].(end := Abandoned)]);
      }
    }

    method Open(user: string, key: Key, newVersion: Uuid) returns (answer: Opening)
      modifies this
      ensures (game, answer) == OpenEdition(old(game), user, key, newVersion)
    {
      if user != game.owner {
        return OpeningNotFound;
      }
      var base := LatestEdition(game.editions, Published);
      if key in game.requests {
        if game.requests[key] >= |game.editions| || base.None? {
          return BrokenRequest;
        }
        return Opened(game.editions[game.requests[key]].version, game.editions[base.value].version);
      }
      if !game.published || base.None? {
        return NotPublished;
      }
      var open := LatestEdition(game.editions, Editing);
      if open.Some? {
        return AlreadyOpen(game.editions[open.value].version);
      }
      var pending := PendingRelease(game.releases);
      if pending.Some? {
        return Publishing;
      }
      var edition := |game.editions|;
      answer := Opened(newVersion, game.editions[base.value].version);
      game := game.(editions := game.editions + [Edition(newVersion, Editing)]);
      game := game.(requests := game.requests[key := edition]);
    }
  }

  // --- Creating a game once per owner and key ---

  /** A claim stored before names were has none, and any name replays it. */
  datatype Claim = Claim(name: Option<string>, game: Uuid)

  datatype Catalog = Catalog(claims: map<(string, Key), Claim>, games: map<Uuid, Game>)

  datatype Creation = Created(game: Uuid, version: Uuid) | Replayed(game: Uuid, version: Uuid) | NameConflict | BrokenClaim

  predicate Conflicts(claim: Claim, name: string) { claim.name.Some? && claim.name.value != name }

  /** The claim and the game it creates commit together. */
  function CreateGame(c: Catalog, owner: string, name: string, key: Key, newGame: Uuid, newVersion: Uuid): (Catalog, Creation) {
    if (owner, key) in c.claims then
      var claim := c.claims[(owner, key)];
      if Conflicts(claim, name) then (c, NameConflict)
      else if claim.game !in c.games || c.games[claim.game].editions == [] then (c, BrokenClaim)
      else (c, Replayed(claim.game, c.games[claim.game].editions[0].version))
    else
      (Catalog(c.claims[(owner, key) := Claim(Some(name), newGame)], c.games[newGame := NewGame(owner, newVersion)]),
       Created(newGame, newVersion))
  }

  /** Every claim names a game of its owner, each game belongs to one claim, and the
      first edition is never removed. */
  predicate CatalogOk(c: Catalog) {
    && (forall k :: k in c.claims ==>
          c.claims[k].game in c.games && c.games[c.claims[k].game].owner == k.0
          && c.games[c.claims[k].game].editions != [])
    && (forall j, k :: j in c.claims && k in c.claims && j != k ==> c.claims[j].game != c.claims[k].game)
  }

  /** What any later work on games may have changed: editions are only added. */
  predicate CatalogGrows(c: Catalog, d: Catalog) {
    && (forall k :: k in c.claims ==> k in d.claims && d.claims[k] == c.claims[k])
    && (forall u :: u in c.games ==> u in d.games && GameGrows(c.games[u], d.games[u]))
  }

  predicate GameGrows(g: Game, h: Game) {
    && h.owner == g.owner && |g.editions| <= |h.editions|
    && forall i :: 0 <= i < |g.editions| ==> h.editions[i].version == g.editions[i].version
  }

  /** Creating keeps the catalog sound and takes nothing away. */
  lemma CreateGameKeepsCatalog(c: Catalog, owner: string, name: string, key: Key, newGame: Uuid, newVersion: Uuid)
    requires CatalogOk(c) && newGame !in c.games
    ensures var (made, answer) := CreateGame(c, owner, name, key, newGame, newVersion);
            && CatalogOk(made) && CatalogGrows(c, made) && !answer.BrokenClaim?
            && (answer.Created? <==> (owner, key) !in c.claims)
            && (answer.Created? ==>
                  && answer == Created(newGame, newVersion) && made.games == c.games[newGame := made.games[newGame]]
                  && made.games[newGame] == Game(owner, true, PrivateGame, false, [Edition(newVersion, Editing)], [], map[]))
            && (answer.Replayed? ==> made == c)
  {
    assert NewGame(owner, newVersion).editions != [];
  }

  lemma ReplaysLater(made: Catalog, later: Catalog, owner: string, key: Key, name: string, newGame: Uuid, newVersion: Uuid)
    requires (owner, key) in made.claims && made.claims[(owner, key)].game in made.games
    requires made.games[made.claims[(owner, key)].game].editions != [] && CatalogGrows(made, later)
    ensures var claim := made.claims[(owner, key)];
            CreateGame(later, owner, name, key, newGame, newVersion)
            == (later, if claim.name.Some? && claim.name.value != name then NameConflict
                       else Replayed(claim.game, made.games[claim.game].editions[0].version))
  {
    var claim := made.claims[(owner, key)];
    assert later.claims[(owner, key)] == claim;
    assert GameGrows(made.games[claim.game], later.games[claim.game]);
  }

  /** However much later a retry comes, it answers the same game and first edition,
      creating nothing; another name under the key is a conflict, unless the claim was
      stored without one. */
  lemma CreateGameRetryAnswersTheSame(c: Catalog, owner: string, name: string, key: Key, newGame: Uuid, newVersion: Uuid,
                                      later: Catalog, otherName: string, otherGame: Uuid, otherVersion: Uuid)
    requires CatalogOk(c) && newGame !in c.games && CatalogOk(later)
    requires CatalogGrows(CreateGame(c, owner, name, key, newGame, newVersion).0, later)
    ensures var (made, answer) := CreateGame(c, owner, name, key, newGame, newVersion);
            && (owner, key) in made.claims
            && ((owner, key) !in c.claims ==> made.claims[(owner, key)].name == Some(name))
            && (!answer.NameConflict? ==>
                  CreateGame(later, owner, otherName, key, otherGame, otherVersion)
                  == (later, var name := made.claims[(owner, key)].name;
                             if name.Some? && name.value != otherName then NameConflict
                             else Replayed(answer.game, answer.version)))
  {
    var (made, answer) := CreateGame(c, owner, name, key, newGame, newVersion);
    ReplaysLater(made, later, owner, key, otherName, otherGame, otherVersion);
  }
}
