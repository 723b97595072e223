/** Play's side of publishing one game: the versions it holds, each a DRAFT being edited
    and built or an executable version, immutable from then on. Every function is one
    transaction under the game's row lock. */
module PlayVersions {
  import opened Options
  import opened GameLifecycle

  /** ready holds the revisions whose build succeeded with every required asset bound. */
  datatype Version = Draft(revision: nat, ready: set<nat>) | Executable(revision: nat)

  datatype Play = Play(versions: map<Uuid, Version>, current: Option<Uuid>)

  datatype Readiness = CheckMissing | CheckReady(revision: nat) | CheckNotReady | CheckNotEditable

  function CheckPublication(p: Play, version: Uuid): Readiness {
    if version !in p.versions then CheckMissing
    else match p.versions[version]
      case Executable(_) => CheckNotEditable
      case Draft(revision, ready) => if revision in ready then CheckReady(revision) else CheckNotReady
  }

  datatype Freeze = FreezeMissing | Frozen | AlreadyFrozen | FreezeNotReady

  /** An executable version answers already frozen whatever revision it was frozen at. */
  function FreezeVersion(p: Play, version: Uuid, revision: nat): (Play, Freeze) {
    if version !in p.versions then (p, FreezeMissing)
    else match p.versions[version]
      case Executable(_) => (p, AlreadyFrozen)
      case Draft(current, ready) =>
        if current != revision || current !in ready then (p, FreezeNotReady)
        else (Play(p.versions[version := Executable(current)], Some(version)), Frozen)
  }

  predicate HasDraft(p: Play) { exists v :: v in p.versions && p.versions[v].Draft? }

  datatype Drafting = DraftCreated | DraftAlreadyCreated(revision: nat) | DraftAnotherOpen | DraftConflict | DraftNoBase

  predicate CanStartFrom(p: Play, from: Option<Uuid>) {
    from.None? || (from.value in p.versions && p.versions[from.value].Executable?)
  }

  function CreateDraftVersion(p: Play, version: Uuid, from: Option<Uuid>): (Play, Drafting) {
    if version in p.versions then
      match p.versions[version]
      case Draft(revision, _) => (p, DraftAlreadyCreated(revision))
      case Executable(_) => (p, DraftConflict)
    else if HasDraft(p) then (p, DraftAnotherOpen)
    else if !CanStartFrom(p, from) then (p, DraftNoBase)
    else (p.(versions := p.versions[version := Draft(1, {})]), DraftCreated)
  }

  datatype Edit = EditMissing | EditNotEditable | EditApplied(revision: nat) | EditRefused(revision: nat)

  /** A change over the draft: accepted says whether it applies, which makes a new revision
      with nothing built yet, or is unchanged, invalid or conflicting. */
  function EditDraft(p: Play, version: Uuid, accepted: bool): (Play, Edit) {
    if version !in p.versions then (p, EditMissing)
    else match p.versions[version]
      case Executable(_) => (p, EditNotEditable)
      case Draft(revision, ready) =>
        if !accepted then (p, EditRefused(revision))
        else (p.(versions := p.versions[version := Draft(revision + 1, ready)]), EditApplied(revision + 1))
  }

  /** The build worker makes an existing revision ready; the first is 1. */
  function FinishBuild(p: Play, version: Uuid, revision: nat): Play {
    if version !in p.versions || p.versions[version].Executable? || !(1 <= revision <= p.versions[version].revision) then p
    else
      var v := p.versions[version];
      p.(versions := p.versions[version := v.(ready := v.ready + {revision})])
  }

  // --- What Play keeps on its own ---

  predicate OneDraftAtMost(p: Play) {
    forall v, w :: v in p.versions && w in p.versions && p.versions[v].Draft? && p.versions[w].Draft? ==> v == w
  }

  /** Whatever it is asked for, Play never comes to hold two drafts. */
  lemma EachKeepsOneDraft(p: Play, version: Uuid, from: Option<Uuid>, revision: nat, accepted: bool)
    requires OneDraftAtMost(p)
    ensures OneDraftAtMost(CreateDraftVersion(p, version, from).0) && OneDraftAtMost(FreezeVersion(p, version, revision).0)
    ensures OneDraftAtMost(EditDraft(p, version, accepted).0) && OneDraftAtMost(FinishBuild(p, version, revision))
  {
  }

  /** A version is made if and only if it is new, no other is a draft, and what it starts
      from, if anything, is executable; another draft is answered before a missing base. */
  lemma DraftIsCreatedIff(p: Play, version: Uuid, from: Option<Uuid>)
    ensures var (q, answer) := CreateDraftVersion(p, version, from);
            var another := exists v :: v in p.versions && p.versions[v].Draft?;
            && (answer.DraftCreated? <==>
                  version !in p.versions && !another && (from.Some? ==> from.value in p.versions && p.versions[from.value].Executable?))
            && (answer.DraftAnotherOpen? <==> version !in p.versions && another)
            && q == (if answer.DraftCreated? then p.(versions := p.versions[version := Draft(1, {})]) else p)
  {
  }

  class PlayStore {
    var play: Play

    constructor (play: Play)
      ensures this.play == play
    {
      this.play := play;
    }

    method Freeze(version: Uuid, revision: nat) returns (answer: Freeze)
      modifies this
      ensures (play, answer) == FreezeVersion(old(play), version, revision)
    {
      if version !in play.versions {
        return FreezeMissing;
      }
      var found := play.versions[version];
      if found.Executable? {
        return AlreadyFrozen;
      }
      if found.revision != revision {
        return FreezeNotReady;
      }
      if found.revision !in found.ready {
        return FreezeNotReady;
      }
      play := play.(versions := play.versions[version := Executable(found.revision)]);
      play := play.(current := Some(version));
      return Frozen;
    }

    method CreateDraft(version: Uuid, from: Option<Uuid>) returns (answer: Drafting)
      modifies this
      ensures (play, answer) == CreateDraftVersion(old(play), version, from)
    {
      if version in play.versions {
        var existing := play.versions[version];
        if existing.Executable? {
          return DraftConflict;
        }
        return DraftAlreadyCreated(existing.revision);
      }
      if HasDraft(play) {
        return DraftAnotherOpen;
      }
      if !CanStartFrom(play, from) {
        return DraftNoBase;
      }
      play := play.(versions := play.versions[version := Draft(1, {})]);
      return DraftCreated;
    }

    method Edit(version: Uuid, accepted: bool) returns (answer: Edit)
      modifies this
      ensures (play, answer) == EditDraft(old(play), version, accepted)
    {
      if version !in play.versions {
        return EditMissing;
      }
      var found := play.versions[version];
      if found.Executable? {
        return EditNotEditable;
      }
      if !accepted {
        return EditRefused(found.revision);
      }
      play := play.(versions := play.versions[version := found.(revision := found.revision + 1)]);
      return EditApplied(found.revision + 1);
    }
  }
}
