# Playhoot: verified models of its hard cores

This Dafny project models the parts of Playhoot whose correctness is hardest to see by
reading, and proves what they are for. `dafny verify dfyconfig.toml` checks all of it.

| file | models |
|---|---|
| RateLimit.dfy, KeyedRateLimit.dfy | buckets that keep only the instant they are full again; several combined; one set per key with sweeping |
| GameLifecycle.dfy, PlayVersions.dfy | the store operations of Game Management and of Play on one game |
| Publication.dfy, PublicationRuns.dfy, PublicationRecovery.dfy, PublicationAnswers.dfy, PublicationFailures.dfy | the orchestrator's calls over those two stores, interleaving, crashing anywhere and recovering, and exactly what each answers, and when it fails |
| Ownership.dfy, DraftBases.dfy | the calls of users who do not own the game; what each edition's draft is made from |
| RecordedRelease.dfy, TwoEditions.dfy, StaleBegin.dfy, EarlierRelease.dfy, EditionRetry.dfy | when a recorded release can come to harm, what a call that finds another one answers, when a retry fails, and the runs that show each |
| AiAuthorization.dfy, AiTransactions.dfy | one-time codes, rotating refresh tokens and revocation, run alone and as interleaved transactions |
| LiveLanes.dfy, LiveConnection.dfy, LiveConnectionRuns.dfy, LiveServe.dfy, LiveController.dfy | one live connection's lanes, streams and closing, the goroutine that serves it, and the instance's room and shutdown |
| RequestLog.dfy, RequestLogOutput.dfy, RequestLogNested.dfy | the request log's tree of scopes, what is written for a scope and for the whole tree |
| Metrics.dfy, MetricsRegistry.dfy | label value resolution, interned labels and the bound on a metric's series |
| Options.dfy, Counting.dfy | a value that may be missing; how many distinct numbers fit below a bound |

How to read it:

- Code that changes a store, a buffer or an object step by step is a class whose methods are
  proved equal to functions of the old state; the lemmas are about those functions.
- Code that runs concurrently is a state machine. Each atomic step is a function, a run is a
  sequence of steps, and the main results hold after every run, in every interleaving.
- A transaction is atomic where a row lock makes it so. AiTransactions.dfy does not assume
  this: it models the locks the queries take and proves what they are worth.

Where the code and what is written about it differ, the code is modelled, and the exact
condition under which the two agree is proved:

- utils/ratelimit/ratelimit.go:13 promises at most Count events within any Per. The code
  keeps that exactly when Count is 1 (`RateLimit.CommentHoldsIffCountIsOne`); what it keeps
  for every limit is `RateLimit.AdmittedIsBounded`.
- Recording a release is given a revision but no version. In any reachable state the release
  so recorded can never be stranded, nor abandoned and frozen all the same, if and only if the
  open edition's draft is past that revision, or is at it and ready
  (`RecordedRelease.RecordedReleaseIsSafeIff`). The orchestrator ensures this unless an edition
  is opened between one call's check and its begin; the results on runs assume that does not
  happen (`EventUndisturbed`), and `StaleBegin.StaleBeginStrandsAnEdition` is a run in which
  it does and an edition is stranded.
- A call whose begin finds another release being published answers not_editable. That is
  what holds afterwards if and only if Play is not past that release's revision
  (`EarlierRelease.NotEditableIsWrongIffPast`; `EarlierRelease.NotEditableCanBeWrong` is a run
  that reaches the other case).
- A retry with the same key is said to resume where it stopped. OpenEdition's resumes, with
  the version its request named, if and only if that edition is open and no release of it is
  being published that Play can still freeze: such a release the retry itself publishes first,
  and then it fails (`PublicationRecovery.OpenRetryResumesIff`; `EditionRetry.OpenRetryCanFail`
  is a run that reaches that case). CreateGame's answers the first version's draft if and only
  if that version is not frozen (`PublicationRecovery.FirstDraftRetryIff`).
- Memory is said to follow the keys active within the longest limit. A key is remembered for
  up to two periods less two nanoseconds after its last call
  (`KeyedRateLimit.RememberedKeysWereCalledLately`), and that long for every period of at
  least two (`KeyedRateLimit.ReachIsAttained`).
- A Keyed agrees with never-forgotten limiters under every clock if and only if its limits
  refuse nothing at all (`KeyedRateLimit.AlwaysAgreesIffNothingLimited`). For any limits it
  agrees on a key none of whose calls is earlier than the last sweep before it
  (`KeyedRateLimit.SweepingChangesNoAnswer`).
- A client is told the session ended exactly when it was sent the start, except when ctx is
  found done right after that start was written (`LiveConnection.ClientIsSentAnOrder`,
  `LiveConnection.CancelledStartClosesAsLobby`).
- A lane's capacity bounds it exactly when one goroutine offers to it
  (`LiveLanes.CapacityHoldsIffOneOffers`).
- Labels whose values use some characters are all told apart if and only if NUL is not one of
  them (`MetricsRegistry.TellsApartIffNoNul`); any two share a key exactly when their names
  are equal and their sorted values, cut at every NUL, give the same pieces
  (`MetricsRegistry.SharedKeyIffSamePieces`).

## Model

| member | source | states |
|---|---|---|
| RateLimit.AdmittedIsBounded | utils/ratelimit/ratelimit.go:43-131 | over every run of AllowN and Record, the clock going backwards included, what is admitted between two effective times costs, at per / count each, at most per plus the time between them, for each limit |
| RateLimit.CommentHoldsIffCountIsOne | utils/ratelimit/ratelimit.go:13-15 | at most Count within any Per holds over every run if and only if Count is 1 |
| RateLimit.BurstIffItFits | utils/ratelimit/ratelimit.go:38-63 | a fresh limiter lets n through at once exactly when n times per / count fits in per, which it does for n up to count |
| RateLimit.LimitsSomethingIffCountFitsPer | utils/ratelimit/ratelimit.go:38-40 | a limit ever refuses anything if and only if Count is at most Per in nanoseconds |
| RateLimit.RefusalWaitIsExact | utils/ratelimit/ratelimit.go:52-63 | a refusal takes nothing, and the request is let through from the answered wait on and at no earlier instant; one that fits no bucket never is |
| RateLimit.RefusalWaitIsExactInEveryRun | utils/ratelimit/ratelimit.go:119-126 | so after every run of one limiter, across the longest wait of its limits |
| RateLimit.BucketRefines | utils/ratelimit/ratelimit.go:29-63 | the instant a bucket is full again is a token bucket's room: clock, wait, taking and recording agree |
| RateLimit.RefinesTokenBuckets | utils/ratelimit/ratelimit.go:97-131 | every run of every combination of limits answers what plain token buckets answer, all or nothing |
| RateLimit.LimitsAreTokenBuckets | utils/ratelimit/ratelimit.go:38-131 | so from the first call on: every limiter answers as token buckets that start full and spend per / count on each event |
| RateLimit.RetryAfterIsTheLongest | utils/ratelimit/ratelimit.go:119-126 | the wait answered is no bucket's less and some bucket's own, and none exactly when the request is let through |
| RateLimit.IntervalFits | utils/ratelimit/ratelimit.go:38-40 | Count truncated intervals fit in Per and it is 0 exactly when Count exceeds Per |
| RateLimit.AllowIn | utils/ratelimit/ratelimit.go:119-131 | the two passes in place decide and change the buckets as the functions the lemmas are about |
| RateLimit.Limiter.AllowN | utils/ratelimit/ratelimit.go:97-101 | n events are taken from every bucket when all have room, else from none |
| RateLimit.Limiter.Record | utils/ratelimit/ratelimit.go:105-117 | every bucket takes one event and never owes more than per |
| KeyedRateLimit.SweepingChangesNoAnswer | utils/ratelimit/ratelimit.go:163-206 | every call on a key none of whose calls is earlier than the last sweep before it is answered as that key's own never-forgotten limiter would, whatever the clock does otherwise |
| KeyedRateLimit.NonDecreasingIsOnTime | utils/ratelimit/ratelimit.go:186-206 | with a clock that never goes backwards that is every call on every key |
| KeyedRateLimit.AlwaysAgreesIffNothingLimited | utils/ratelimit/ratelimit.go:163-206 | under every clock all calls are answered so if and only if every limit has Count above Per, and so refuses nothing |
| KeyedRateLimit.AlikeAnswerAlike | utils/ratelimit/ratelimit.go:186-206 | buckets full by now cannot be told from fresh ones from then on |
| KeyedRateLimit.ClockGoingBackwardsForgetsTooMuch | utils/ratelimit/ratelimit.go:188-206 | with a clock going backwards a forgotten key gets room its own limiter refuses |
| KeyedRateLimit.RememberedKeysWereCalledLately | utils/ratelimit/ratelimit.go:133-136 | with a clock that never goes backwards every remembered key was called within the last two periods less two |
| KeyedRateLimit.ReachIsAttained | utils/ratelimit/ratelimit.go:186-206 | for every period of at least two, a run after which a key last called that long ago is remembered |
| KeyedRateLimit.SweepEveryIsTheLongest | utils/ratelimit/ratelimit.go:149-158 | the sweep period is 0 with no limits and else the Per of one, than which no other is longer |
| KeyedRateLimit.AnswerSaysWhetherItSwept | utils/ratelimit/ratelimit.go:160-206 | a call says it swept exactly when no limit's period is longer than the time since the last sweep; then, and only then, the sweep's time moves and every other key whose buckets are all full is forgotten |
| KeyedRateLimit.Keyed.Allow | utils/ratelimit/ratelimit.go:163-177 | sweeps, makes the key's buckets when missing, decides; the memory after is the function the lemmas are about |
| KeyedRateLimit.Keyed.Sweep | utils/ratelimit/ratelimit.go:188-206 | forgets exactly the keys all of whose buckets are full, at most once per period |
| GameLifecycle.GameStore.Begin | game/workflows/gamelifecycle/step_publish.go:95-157 | answers by key first, then the pending release, then the open edition, and records a release only with all clear |
| GameLifecycle.GameStore.Complete | game/workflows/gamelifecycle/step_publish.go:250-289 | publishes the edition, the game and the release together or changes nothing |
| GameLifecycle.GameStore.Abandon | game/workflows/gamelifecycle/step_publish.go:293-321 | ends a pending release and leaves an ended one as it is |
| GameLifecycle.GameStore.Open | game/workflows/gamelifecycle/step_open_edition.go:74-145 | opens an edition once per key, replaying the recorded one |
| GameLifecycle.OpeningAnswers | game/workflows/gamelifecycle/step_open_edition.go:74-127 | what the owner is answered under a new key, each answer exactly when it holds: not published, the open edition's version, publishing, or opened with the newest published version as base |
| GameLifecycle.NotFoundIffNotOwner | game/usecases/findeditableversion/service.go:60-66 | whoever does not own the game, and nobody else, is answered not found by each store operation, and changes nothing |
| GameLifecycle.CreateGameKeepsCatalog | game/workflows/gamelifecycle/step_create_game.go:94-144 | a claim and its game, private and with its first edition open, commit together and no claim is ever broken |
| GameLifecycle.CreateGameRetryAnswersTheSame | game/workflows/gamelifecycle/step_create_game.go:94-144 | however much later, a retry answers the same game and first edition and creates nothing; another name is a conflict, unless the claim was stored without one |
| PlayVersions.PlayStore.Freeze | play/session/workflows/versiondrafting/step_publish_version.go:110-190 | a draft is frozen only at its current, ready revision, for good |
| PlayVersions.PlayStore.CreateDraft | play/session/workflows/versiondrafting/step_create_draft_version.go:87-155 | a draft is created at most once, and not beside another |
| PlayVersions.DraftIsCreatedIff | play/session/workflows/versiondrafting/step_create_draft_version.go:87-155 | a version is made exactly when it is new, no other is a draft, and what it starts from, if anything, is executable; otherwise nothing changes |
| PlayVersions.EachKeepsOneDraft | play/session/workflows/versiondrafting/step_create_draft_version.go:87-155 | whatever it is asked for, Play on its own never comes to hold two drafts |
| Publication.SafetyOfEveryRun | orchestrator/gameauthoring/publish.go:201-248 | in every state of every run with crashes anywhere: frozen means published or being published, published means frozen, one open edition, one pending release of that edition, one draft which is that edition's, and no call raised an alert |
| Publication.EveryRunKeepsOk | orchestrator/gameauthoring/publish.go:91-299 | the agreement of the two stores and of every call with them is kept by every run, and everything written only moves forward |
| Publication.AbandonedIsNeverFrozen | orchestrator/gameauthoring/publish.go:201-232 | a release once abandoned is of a version never frozen at its revision, before or after, however many calls were finishing it |
| Publication.FrozenIsAccountedFor | game/workflows/gamelifecycle/step_publish.go:250-289 | every frozen version is a published edition's or one being published at that revision |
| Publication.DraftIsTheOpenEditions | orchestrator/gameauthoring/ensure_draft.go:46-79 | any draft Play holds is the open edition's, so there is never another one open |
| Publication.BeginKeepsIffPublishable | game/workflows/gamelifecycle/step_publish.go:95-157 | recording a release keeps the invariant of the runs if and only if Play can freeze the open edition at that revision, or is past it |
| RecordedRelease.RecordedReleaseIsSafeIff | game/workflows/gamelifecycle/step_publish.go:95-157 | in every reachable state, no undisturbed continuation strands the release recorded next or abandons it and freezes its revision, if and only if its revision is publishable for the open edition |
| RecordedRelease.PublishableMeans | play/session/publishing.go:28-60 | that is: the open edition's draft is past the revision, or is at it and ready |
| RecordedRelease.UnpublishableIsHarmed | orchestrator/gameauthoring/publish.go:201-248 | otherwise some undisturbed continuation does: later calls abandon it, edit up to its revision and freeze it there |
| RecordedRelease.EveryRunIsFromOne | play/session/drafting.go:24-27 | revisions start at 1 in every run, and only those already made are ever ready |
| Publication.FreezeKeeps | play/session/publishing.go:51-60 | freezing a pending release's version keeps the stores in agreement, and what it answers says what the release must become |
| Publication.CompleteKeeps | game/workflows/gamelifecycle/step_publish.go:250-289 | completing a release whose version is frozen keeps them, and its edition is always open |
| Publication.AbandonKeeps | game/workflows/gamelifecycle/step_publish.go:293-321 | abandoning keeps them when Play has moved past the release's revision |
| Publication.OpenKeeps | game/workflows/gamelifecycle/step_open_edition.go:74-127 | opening an edition keeps them and never finds a request broken |
| Publication.CreateDraftKeeps | orchestrator/gameauthoring/ensure_draft.go:64-79 | creating or repairing a draft keeps them and never finds another draft open |
| Publication.ActKeeps | orchestrator/gameauthoring/publish.go:91-248 | so does each store operation of each call, wherever it stands |
| PublicationRecovery.ResumeLeavesNothingPending | orchestrator/gameauthoring/publish.go:236-248 | from any reachable stores a call run alone first ends the release a crash left, and nothing else |
| PublicationRecovery.RetryAnswersTheRecordedRelease | orchestrator/gameauthoring/publish.go:91-108 | publishing again with a recorded key answers that release as it ended, published exactly when Play froze it, and records no other |
| PublicationRecovery.ReadyDraftIsPublished | orchestrator/gameauthoring/publish.go:91-199 | a ready draft is published at its current revision: release, edition, visibility and the game's current version, all of both stores after |
| PublicationAnswers.PublishAnswersExactly | orchestrator/gameauthoring/publish.go:91-199 | the answer and both stores after publishing under a new key, from any reachable stores: not editable with no edition open, not ready with the draft missing (and then made), unready or the game unnamed, and otherwise published |
| PublicationAnswers.FrozenMeanwhileIsRefused | orchestrator/gameauthoring/publish.go:146-155 | a version frozen since the call found it is refused as not editable |
| PublicationAnswers.BegunOnce | game/workflows/gamelifecycle/step_publish.go:95-120 | however much later, beginning again under a recorded key records nothing: with another visibility it conflicts, otherwise it answers that release as it stands |
| PublicationAnswers.BeginningAnswersTheRecorded | orchestrator/gameauthoring/publish.go:157-199 | a call that begins a release recorded under its key meanwhile ends it if it is pending and answers it as it ended; with another visibility it conflicts |
| PublicationAnswers.OpenAnswersExactly | orchestrator/gameauthoring/publish.go:266-299 | the answer and both stores after opening an edition under a new key: not published, the open one's version, or the edition added and its draft made |
| PublicationAnswers.EditAnswersExactly | orchestrator/gameauthoring/change_draft.go:54-82 | an edit is over the open edition's draft, made anew when a crash left it missing, and makes exactly its next revision when it applies; nothing else changes |
| PublicationAnswers.EnsureAnswersExactly | orchestrator/gameauthoring/ensure_draft.go:27-44 | the open edition's draft is made if and only if it is missing; while the version is frozen the call fails |
| PublicationFailures.AlertsIff | orchestrator/gameauthoring/publish.go:201-299 | a step raises an alert exactly on broken data: a pending release of an edition that is not open, a recorded opening without its editions, a draft beside the one asked for |
| PublicationFailures.FailsIff | orchestrator/gameauthoring/publish.go:91-299 | and fails exactly when what it needs is missing or was decided otherwise |
| PublicationFailures.OnlyRacesFail | orchestrator/gameauthoring/publish.go:91-299 | so in every run a step fails if and only if another call abandoned the release it was completing, or the version whose draft it creates is frozen; and no step alerts |
| Ownership.StrangerIsRefused | orchestrator/gameauthoring/change_draft.go:54-82 | publishing, opening, editing or ensuring the draft of another's game is answered not found and leaves both stores as they were |
| Ownership.StrangersAreRefused | orchestrator/gameauthoring/publish.go:91-299 | so in every run, at every step of such a call |
| Ownership.StrangersLeaveNoTrace | orchestrator/gameauthoring/publish.go:91-299 | noninterference: without all events of such calls, the rest is a run with the same stores and the owner's calls where they were |
| DraftBases.EveryDraftContinuesItsGame | orchestrator/gameauthoring/ensure_draft.go:46-79 | in every run, whenever a version appears in Play it is made from the version of the edition before its own, which is executable, and the first from nothing |
| PublicationRecovery.OpenRetryResumesIff | orchestrator/gameauthoring/publish.go:266-299 | from any reachable stores a retried opening, run alone, answers the version its request named, that version's draft and its revision, if and only if that edition is open and no pending release of it can still be frozen; otherwise it fails |
| PublicationRecovery.ReplayAnswersTheSameIffOpen | game/workflows/gamelifecycle/step_open_edition.go:131-145 | a replayed opening answers the edition it recorded and the one before it as its base if and only if that edition is open |
| EditionRetry.OpenRetryCanFail | orchestrator/gameauthoring/publish.go:266-299 | an undisturbed run reaches stores from which the retry fails although its edition is open when it begins |
| PublicationRecovery.FirstDraftRetryIff | orchestrator/gameauthoring/create_game.go:40-61 | from any reachable stores the second step of creating a game, retried alone, answers the first version's draft if and only if that version is not frozen, and otherwise fails and changes nothing |
| PublicationRecovery.AloneKeeps | orchestrator/gameauthoring/publish.go:91-299 | a call run alone keeps the stores in agreement |
| PublicationRecovery.Manager.FinishRelease | orchestrator/gameauthoring/publish.go:201-232 | the sequence of store calls is the call's steps run alone from that point |
| PublicationRecovery.Manager.ResumePublication | orchestrator/gameauthoring/publish.go:236-248 | the same, for resuming |
| PublicationRecovery.Manager.Publish | orchestrator/gameauthoring/publish.go:91-199 | the same, for publishing |
| PublicationRecovery.Manager.OpenNewEdition | orchestrator/gameauthoring/publish.go:271-299 | the same, for opening an edition |
| PublicationRecovery.Manager.EditVersion | orchestrator/gameauthoring/change_draft.go:54-82 | the same, for resuming, editing, repairing and editing once more |
| PublicationRecovery.Manager.EnsureDraft | orchestrator/gameauthoring/ensure_draft.go:27-44 | the same, for ensuring the draft |
| StaleBegin.StaleBeginStrandsAnEdition | orchestrator/gameauthoring/publish.go:120-191 | with an edition opened between one call's check and its begin, a run strands a frozen open edition with nothing pending; without, none does |
| EarlierRelease.NotEditableIsWrongIffPast | orchestrator/gameauthoring/publish.go:185-191 | a call whose begin finds a release being published answers not_editable, and an edition is open afterwards if and only if Play is past that release's revision, which is then abandoned |
| EarlierRelease.NotEditableCanBeWrong | orchestrator/gameauthoring/publish.go:185-191 | an undisturbed run reaches such a call that answers not_editable while the edition stays open |
| AiAuthorization.OnlyReuseWritesOnRefusal | identity/usecases/aiauthorization/service.go:350-462 | reuse is detected if and only if a used code, or a used token of a live connection, is presented; it revokes that connection, for that reason, and changes nothing else, and every other refusal changes nothing |
| AiAuthorization.OlderTokenRevokes | identity/usecases/aiauthorization/service.go:413-420 | any refresh token but a live connection's newest revokes it when presented |
| AiAuthorization.PendingIsDecidedIff | identity/usecases/aiauthorization/service.go:225-288 | a request is decided, as the user said, if and only if it is pending and unexpired; otherwise it is answered not found and nothing changes |
| AiAuthorization.DecidedCodeIsExchangedIff | identity/usecases/aiauthorization/service.go:251-388 | from any later store, the code drawn for a decision is exchanged if and only if the user approved, its lifetime is not over, it was not exchanged before, and client, redirect, verifier and resource are the request's; the connection is the deciding user's |
| AiAuthorization.RequestBecomesConnectionIff | identity/usecases/aiauthorization/service.go:136-388 | the same from the application's own request on, with both lifetimes |
| AiAuthorization.ResourceMatchesIff | identity/usecases/aiauthorization/service.go:365-365 | a resource asked for matches if and only if none was named or it is the one granted with any slashes after it |
| AiAuthorization.CodeIsExchangedIff | identity/usecases/aiauthorization/service.go:343-388 | an issued code is exchanged if and only if it is unused, unexpired and presented by its client with its redirect, verifier and resource; the connection is the approving user's |
| AiAuthorization.TokenIsRotatedIff | identity/usecases/aiauthorization/service.go:409-435 | a refresh token is rotated if and only if it is unused, unexpired, its connection live, and the client and resource are the connection's |
| AiAuthorization.GrantedAccessIsAccepted | identity/usecases/aiauthorization/service.go:464-519 | the access token handed out is accepted, for the connection's own user only, exactly until it expires give or take the clock skew |
| AiAuthorization.GrantedTokenIsNewest | identity/usecases/aiauthorization/service.go:374-445 | the refresh token handed out is its connection's one unused token |
| AiAuthorization.RevokesIff | identity/usecases/aiauthorization/service.go:474-553 | a live connection is revoked if and only if its own client asks with one of its tokens, or its user does: that one, for that reason, and nothing else |
| AiAuthorization.GrantedTokensRevokeIff | identity/usecases/aiauthorization/service.go:474-500 | both tokens handed out revoke their connection, for its own client and for no other |
| AiAuthorization.PerformKeepsSessions | identity/internal/migrations/20261103100000_identity_ai_authorization.go:27-65 | each session came from one code and has one unused refresh token, its newest, after every write |
| AiAuthorization.PerformKeepsSecrets | identity/internal/migrations/20261103100000_identity_ai_authorization.go:27-65 | no two rows ever share a code or a token |
| AiAuthorization.PerformGrows | identity/usecases/aiauthorization/internal/repo/repo.go:181-285 | a decision, a use and a revocation once written are never unwritten |
| AiAuthorization.Service.DecideAuthorization | identity/usecases/aiauthorization/service.go:225-288 | a pending, unexpired request is decided once |
| AiAuthorization.Service.ExchangeCode | identity/usecases/aiauthorization/service.go:333-397 | the transaction's checks in order, its reuse branch and its writes are the operation the lemmas are about |
| AiAuthorization.Service.RefreshTokens | identity/usecases/aiauthorization/service.go:399-445 | the same, for rotating a refresh token |
| AiAuthorization.Service.RevokeRefreshToken | identity/usecases/aiauthorization/service.go:474-489 | the same, for revoking by refresh token |
| AiAuthorization.Service.RevokeAccessToken | identity/usecases/aiauthorization/service.go:489-500 | the same, for revoking by access token |
| AiAuthorization.Service.RevokeOwnConnection | identity/usecases/aiauthorization/service.go:536-553 | the same, for a user's own connection |
| AiAuthorization.Service.VerifyAccessToken | identity/usecases/aiauthorization/service.go:506-519 | a token is accepted only while its connection is live and its user's |
| AiTransactions.EveryRunKeepsOk | identity/usecases/aiauthorization/service.go:333-445 | in every interleaving, even without row locks, each code and each refresh token is exchanged at most once, each session came from one code and has one unused token |
| AiTransactions.EveryRunIsSerial | identity/usecases/aiauthorization/internal/repo/repo.go:152-178 | with the locks the queries take, every run's store and answers are those of the operations run one after another |
| AiTransactions.RevocationIsFinal | identity/usecases/aiauthorization/service.go:474-519 | once a connection is revoked, whatever was open or follows, no code and no token is exchanged for it and no access token of it accepted |
| AiTransactions.ReuseEndsTheConnection | identity/usecases/aiauthorization/service.go:450-462 | the revocation a detected reuse makes commits with the refusal and is final |
| AiTransactions.WithoutLocksRevocationIsNotFinal | identity/usecases/aiauthorization/internal/repo/repo.go:347-366 | without the lock the refresh query takes on the connection's row, a refresh could hand out tokens after its revocation |
| AiTransactions.SomeoneCanCommit | identity/usecases/aiauthorization/internal/repo/repo.go:277-366 | while any transaction has what its query locked, one of those that do can commit |
| AiTransactions.AcquiresInOrder | identity/usecases/aiauthorization/internal/repo/repo.go:152-366 | every operation asks for all the rows it reads locked and all it writes, requests before refresh tokens before connections |
| AiTransactions.NoCircleOfWaits | identity/usecases/aiauthorization/internal/repo/repo.go:277-366 | transactions asking in that order, whatever each already holds and still waits for, never all wait for each other |
| AiTransactions.EmptyIsOk | identity/internal/migrations/20261103100000_identity_ai_authorization.go:27-65 | empty tables with no open transaction satisfy what all these results start from |
| AiTransactions.StaysCurrent | identity/usecases/aiauthorization/internal/repo/repo.go:152-366 | what another transaction writes changes neither what this one decided nor what it locked |
| LiveLanes.EveryRunIsGood | api/internal/live/lanes.go:71-135 | in every interleaving of offers and the lane's loop, messages handled are a prefix of those accepted, in order, a message is refused for room only when the lane was full, and a loop waiting with messages pending has its signal or someone about to send it |
| LiveLanes.CapacityHoldsIffOneOffers | api/internal/live/lanes.go:71-91 | pending never exceeds the capacity in any run if and only if at most one goroutine offers |
| LiveLanes.LoopHandlesEverything | api/internal/live/lanes.go:106-135 | from every reachable state in which nothing ended the lane, offers under way included, the signals still due and the loop's own steps handle every accepted message |
| LiveLanes.RatedExactly | api/internal/live/lanes.go:71-104 | in every run what is accepted is what the rate limit let through, and what is refused for its rate is what the rate limit refused |
| LiveLanes.EndingHandlerStops | api/internal/live/lanes.go:106-118 | a message whose handling ends the connection is the last one handled |
| LiveLanes.CancelledLoopStops | api/internal/live/lanes.go:106-135 | a cancelled context stops the loop wherever it stands, with at most one message more |
| LiveLanes.OfferStepKeepsCapacity | api/internal/live/lanes.go:71-91 | with n offering goroutines pending exceeds the capacity by at most n - 1 |
| LiveConnection.ClientIsSentAnOrder | api/play/live_connection.go:428-559 | in every interleaving of the loops: no lobby update after the start, no view or roster before it, the closing message last of all, and session_ended exactly when the start was sent unless ctx was found done right after it |
| LiveConnection.PhasesAreTheOrder | api/play/live_connection.go:458-461 | a client reading messages one by one accepts exactly the sequences in that order |
| LiveConnection.CancelledStartClosesAsLobby | api/play/live_connection.go:477-482 | a run in which a client that got the start is told the lobby closed |
| LiveConnectionRuns.SentIff | api/play/live_connection.go:428-559 | the sequences of messages a client can be sent, over every interleaving, are exactly those in order with the closing that goes with them: each such sequence has a run that sends it |
| LiveConnectionRuns.StreamGoesOn | api/play/live_connection.go:489-506 | a stream that can send a message can send any number of them |
| LiveConnectionRuns.RosterFollowsTheStart | api/play/player_join.go:327-346 | from every reachable state in which the start was sent, a waiting roster loop goes on to send every update |
| LiveConnectionRuns.NoRosterWithoutTheStart | api/play/player_join.go:332-340 | one that finds the session loop ended without the start leaves, and no roster is ever sent |
| LiveConnectionRuns.CancelledStreamsStop | api/play/live_connection.go:489-506 | once cancelled each stream sends at most one message more, and one on its way out none |
| LiveConnectionRuns.CancelledLobbyNeverStarts | api/play/live_connection.go:463-473 | a connection cancelled in the lobby is never sent the start |
| LiveConnectionRuns.EndedSessionWriteIsTheLast | api/play/live_connection.go:460-506 | a write of the session loop that failed, or whose client was dropped, is its last |
| LiveConnectionRuns.EndedRosterWriteIsTheLast | api/play/player_join.go:341-344 | so is one of the roster loop |
| LiveConnectionRuns.CloserClosesIff | api/play/live_connection.go:538-558 | the socket is closed here exactly when nothing was to tell, the client was told, or it could not be because of the cancellation |
| LiveConnection.SessionKeeps | api/play/live_connection.go:460-506 | each step of the session loop keeps what its place says the client got |
| LiveConnection.RosterKeeps | api/play/player_join.go:327-346 | each step of the roster loop does |
| LiveConnection.LaneKeeps | api/play/live_connection.go:428-437 | so does each answer, none of which follows the closing |
| LiveConnection.CloserKeeps | api/play/live_connection.go:520-559 | so does the closing, after the streams and holding the lock |
| LiveServe.ServedConnectionEndsOnce | api/internal/live/serve.go:70-128 | in whatever order loops, keepalive and shutdown come: disconnect at most once and after cancelling; when serve returns, once, every result received, and one end logged, the first thing received that ends it, which some loop, the keepalive or the shutdown did send |
| LiveServe.EveryRunEnds | api/internal/live/serve.go:97-128 | no run of a served connection is longer than a bound its loops give |
| LiveServe.ServeWaitsForNobodyElse | api/internal/live/serve.go:90-126 | serve ever waits only for a loop or the keepalive still running, cancelled unless nothing ended the connection yet |
| LiveController.EveryRunKeepsRoom | api/internal/live/controller.go:73-182 | over any sequence of reservations, releases however repeated, refusals, connections started and ended and shutdowns, all four limits hold, a nil Shutdown left no connection running, and once stopping the running ones only become fewer |
| LiveController.RoomIsKept | api/internal/live/controller.go:73-125 | reserved and refusing are the sums of their per-caller counts and the releases outstanding, all four limits hold and no zero entry stays |
| LiveController.Controller.Reserve | api/internal/live/controller.go:76-100 | refused exactly when the instance, or else the caller, holds all it may |
| LiveController.Controller.ReleaseReservation | api/internal/live/controller.go:90-99 | a release gives its room back once however often it runs |
| LiveController.Controller.ReserveRefusal | api/internal/live/controller.go:105-125 | room to refuse is counted apart from reservations |
| LiveController.Controller.ReleaseRefusal | api/internal/live/controller.go:114-124 | and given back once |
| LiveController.Controller.Start | api/internal/live/controller.go:149-161 | a connection starts, and is counted, exactly when Shutdown has not begun |
| LiveController.Controller.Done | api/internal/live/controller.go:149-161 | its goroutine's end takes one from those running |
| LiveController.Controller.BeginShutdown | api/internal/live/controller.go:163-182 | from then on the controller is stopping, and a Shutdown that finds none running returns nil |
| LiveController.CountsAddUp | api/internal/live/controller.go:43-51 | the per-caller counts add up to the total |
| LiveController.StoppedOnlyEmpties | api/internal/live/controller.go:149-182 | once Shutdown began none starts and the running connections only become fewer |
| LiveController.RunningAddsUp | api/internal/live/controller.go:149-161 | those running are those started, refused ones not among them, that have not ended |
| LiveController.NilShutdownLeavesNone | api/internal/live/controller.go:163-182 | a Shutdown that returned nil left none running, then and ever after |
| RequestLog.TreeReadsBackBalanced | logging/request_log.go:280-356 | what the tree reads back is balanced; the logging errors count the unmatched closes and the unclosed steps; without any, it is exactly what was recorded |
| RequestLog.Build | logging/request_log.go:227-243 | the tree built reads back, in order, as the recorded actions without unmatched closes and with the missing ones, every step kept under its own name and every scope ended |
| RequestLog.ScopeTree.Apply | logging/request_log.go:280-335 | each action is kept where it was recorded, a step under its own name |
| RequestLog.ScopeTree.CurrentOpenScope | logging/request_log.go:337-343 | following open children reaches the innermost open scope |
| RequestLog.ScopeTree.CloseOpenScopes | logging/request_log.go:345-356 | the steps left open are closed innermost first, each a logging error |
| RequestLog.OneOpenChild | logging/request_log.go:245-255 | a scope has at most one open child |
| RequestLog.TailGrows | logging/request_log.go:280-308 | what the innermost scope gains at its end the whole log gains at its end |
| RequestLogOutput.EveryActionIsWrittenOnce | logging/request_log.go:385-443 | every action a scope kept is written exactly once, none lost and none added |
| RequestLogOutput.LoopsAreGrouped | logging/request_log.go:385-433 | attributes are written in the order of their actions: steps and fields where they were kept, a loop where its first item was with all its items in order; only errors and later items have none |
| RequestLogOutput.OneAttrPerLoop | logging/request_log.go:407-411 | a loop is written once |
| RequestLogOutput.ErrorsComeLast | logging/request_log.go:434-441 | the errors are written once, after the actions, all of them in order; and last the latest one, exactly on the root and when there is one |
| RequestLogOutput.KeysDiffer | logging/request_log.go:385-443 | each key says how often its name was used before it, so no two in a scope are the same |
| RequestLogOutput.OutputAttrs | logging/request_log.go:385-443 | the loops over the actions write the attributes the lemmas are about, each loop at its first item, then the errors and the latest one |
| RequestLogOutput.CollectItems | logging/request_log.go:412-428 | the inner loop gathers exactly the loop's items in order |
| RequestLogNested.NestedIsRead | logging/request_log.go:367-406 | across the whole tree, each step's attributes nested in its own and a step named by the key it is written under, every recorded action is written exactly once |
| RequestLogNested.LatestErrorIsOnTheRoot | logging/request_log.go:437-441 | the latest error is written on the root and on no step |
| RequestLogNested.WriteLog | logging/request_log.go:227-243 | so is what is logged for any recorded actions: each that matched, and a close for each step left open |
| Metrics.Resolve | monitoring/metrics/instrument.go:126-151 | answers the one tuple that gives every label its value among those passed, or panics exactly when there is none |
| Metrics.FitIsUnique | monitoring/metrics/instrument.go:123-151 | at most one tuple fits |
| Metrics.OrderDoesNotMatter | monitoring/metrics/instrument.go:123-125 | the order values are passed in changes nothing |
| Metrics.TuplesAreTheProduct | monitoring/metrics/instrument.go:87-101 | the tuples of declared values are as many as the product of the labels' sizes |
| Metrics.ResolvesExactlyTuples | monitoring/metrics/instrument.go:123-151 | the tuples a metric can be recorded with are exactly those |
| MetricsRegistry.SeriesAreBounded | monitoring/metrics/instrument.go:17-20 | every registered metric has exactly that many series and never more than 1000 |
| MetricsRegistry.KeyTellsLabels | monitoring/metrics/label.go:72-80 | the same name and set of values always share a key, and with no NUL in a value nothing else does |
| MetricsRegistry.NulInAValueCollides | monitoring/metrics/label.go:72-80 | with a NUL in a value two different labels share one |
| MetricsRegistry.SharedKeyIffSamePieces | monitoring/metrics/label.go:72-80 | two declarations share a key if and only if their names are equal and their sorted values, cut at every NUL, give the same pieces |
| MetricsRegistry.TellsApartIffNoNul | monitoring/metrics/label.go:39-43 | all labels whose values use given characters are told apart if and only if NUL is not one of them |
| MetricsRegistry.Registry.NewLabel | monitoring/metrics/label.go:50-88 | declares a label exactly when it is valid, interned by its key |
| MetricsRegistry.Registry.Value | monitoring/metrics/label.go:99-104 | gives a declared value, or panics |
| MetricsRegistry.Registry.CheckLabels | monitoring/metrics/instrument.go:87-101 | stopping at the first excess rejects exactly the labels undeclared, repeated or with more than 1000 combinations |
| MetricsRegistry.Registry.NewInstrument | monitoring/metrics/instrument.go:79-121 | registers a metric exactly when its declaration is valid and not another's |

## Left out

- Time and durations are unbounded integers: the 64-bit overflow of Per times Count and the saturation of a duration are not modelled; the zero time lies before every instant.
- Limits that allow nothing, and a lane with no capacity, panic when constructed in the source; the constructors here require them valid.
- One game is modelled in the publication files; games do not share rows, and each store operation holds its game's or release's row lock.
- Deleting a game, collecting assets, languages, blockers' texts and renaming inside Publish are not modelled; a rename is a step of the environment.
- Publication.SafetyOfEveryRun: assumes no edition is opened between one call's check and its begin; RecordedRelease.RecordedReleaseIsSafeIff says exactly which records are harmless.
- Publication.ActKeeps: an answer that another draft is open does not name that draft's uuid.
- Hashing, PKCE digests, token signing and secret generation are injective or genuine by construction; a drawn secret is new. Registering clients, finding users, listing connections and the states and scopes carried along are not modelled.
- AiTransactions.SomeoneCanCommit: a query that waits for a row lock is modelled as beginning once it has all its rows; those still waiting are NoCircleOfWaits'.
- AiTransactions.NoCircleOfWaits: takes a query that locks a token and its connection to lock them in that order, which the database's plan decides.
- AiTransactions.EveryRunIsSerial: for the same reason a transaction begins when its query has its rows; a request's creation, which runs outside a transaction, is one like the others.
- LiveLanes.EveryRunIsGood: a lane's rate limit is any answer, its own behaviour being RateLimit's; what an excess handler does is not modelled.
- LiveConnection.ClientIsSentAnOrder: what the messages carry, the preview connection and which lane a message type shares are not modelled; a write is one step, which the client gets whole or not at all.
- LiveServe.EveryRunEnds: that a cancelled loop returns is the loops' own duty, so it is not shown; socket calls are left out.
- LiveController.Controller.Start: what a refused connection is told is left out, and connections are counted, not named.
- RequestLog.ScopeTree.Apply: an action whose value has another type than its kind, which the exported functions cannot record, is not modelled.
- RequestLogOutput.OutputAttrs: a key is its name and how often it was used; the text written for it, which two different keys can share, is not claimed to be unique.
- MetricsRegistry.Registry.NewInstrument: buckets are real numbers, so a bound that is not a number does not arise; recording a measurement is not modelled.
- HTTP handlers, JSON, CORS, consent pages, the MCP tools, the login providers, Play's build worker and simulation, migrations and configuration would only add easy members.
