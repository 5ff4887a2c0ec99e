# Verified models of the game server's state-keeping cores

The game server keeps a small number of records that many callers change at
once: idempotency leases, battle rooms and their delta logs, the settlement
ledger, gateway sessions, refresh tokens. It also rests on a few compact state
machines: the circuit breaker, the token bucket, the id generator, the dirty-path
set of the document model. This project models each of them in Dafny and proves
what they are meant to guarantee, for every input and every interleaving.

`dafny verify dfyconfig.toml` checks everything.

## How the models are built

- What the source updates in place is a class here (`IdempotencyRepository`,
  `RoomManager`, `Database`, `RedisStore`, `LockTable`, `NodeRoot`,
  `CircuitBreaker`, `Generator`, `TokenBucket`, ...). Each method is proved equal
  to a small function on values.
- Where callers interleave, a module holds a state machine over those functions:
  `LeaseProtocol`, `LobbyRuns`, `AuthRuns`, and the run parts of `Sessions`,
  `KeyLocks`, `Breaker`, `Snowflake` and `TokenBucket`. A lookup that may find any
  of several records is shared as the predicate that says what it may answer. A
  thread is one handler call and stops before every database operation. One
  document update, one Redis script and one transaction are each one atomic step.
  A run is any sequence of labels; a label that is not enabled changes nothing;
  theorems quantify over all label sequences. Clock readings, drawn ids, store
  faults and lost acknowledgements are parts of the labels.
- History that the program does not keep (who drew an id, which results were
  executed, a room's state at every version) is recorded in extra fields, which
  steps consult only to tell that a drawn id is new.

| file | models |
|---|---|
| `Idempotency.dfy`, `LeaseProtocol.dfy`, `KeyLocks.dfy` | idempotent execution in UserCenter: the record, the lease protocol, the per-process lock table |
| `Room.dfy`, `DeltaLog.dfy`, `RoomManager.dfy` | battle rooms, recorded and composed deltas, memory/store/log agreement, restore |
| `Lobby.dfy`, `LobbyRuns.dfy` | first login, settlement and restore over players, assets, ledger and snapshots |
| `RefreshTokens.dfy`, `AuthRuns.dfy` | token rotation, sign-up and login |
| `Sessions.dfy`, `Lifecycle.dfy` | gateway session records, lifecycle event ids and their consumer |
| `DirtySet.dfy` | the dirty paths of a document and the nodes that report them |
| `Breaker.dfy`, `TokenBucket.dfy`, `Snowflake.dfy` | circuit breaker, rate limiter, id generator |
| `Naming.dfy` | that there is always another id, for theorems that build a run |

## What turned out not to hold everywhere

- A settlement whose delta is -2^63 passes the balance filter, because its
  negation wraps, and leaves the balance negative (`LeastDeltaOverdraws`). Every
  other delta keeps balances non-negative (`SettleKeepsNonNegative`, both ways).
- A restore that finds no snapshot reads the assets and writes a snapshot outside
  any transaction. Overtaken by a settlement it writes an older one over a newer
  one (`BackfillCanGoStale`); its write is right exactly when the asset version it
  read is still the stored one (`BackfillExact`). The snapshots stay current in
  every run if and only if every player of the store at the start has one
  (`SnapshotsStayCurrentExactly`), which the empty store satisfies.
- A recorded delta reproduces the room exactly when the callback leaves every
  player under their own id (`DeltaStepExact`, both ways).
- All answers repeat a completed record until a clock reaches its expiry, and not
  longer: from every reachable state, replies up to a given clock reading agree if
  and only if the reading is before the expiry (`AgreementEndsAtExpiry`).
- The lifecycle consumer misses a higher epoch under an id it has already
  accepted (`AcceptTracksMaximum`, both ways). The gateway's ids never repeat for
  another epoch (`EventIdInjective`).
- The repository's README gives ids a 41-bit time; the code shifts 42 bits of it.
  The model follows the code: order and `Parse` hold below 2^42 milliseconds and
  not above (`IdsGoBack`, `ParseUndoesId`).
- The breaker counts a call as in flight until it returns. An operation that
  never returns, or panics, keeps a half-open breaker shut; `NeverLocksShut` is
  about runs whose admitted calls have returned.

## Model

| member | source | states |
|---|---|---|
| Idempotency.IdempotencyRepository.Find | services/usercenter/repository/mongo/idempotency_repository.go:34-51 | the record of the key if it has not expired, not found otherwise; an empty key is invalid |
| Idempotency.IdempotencyRepository.Reserve | services/usercenter/repository/mongo/idempotency_repository.go:70-144 | insert, look, clear a stale record and insert again, or take a lapsed lease over, undisturbed: owned, held by another, conflict, with the document each leaves; invalid exactly for the listed inputs; other keys untouched |
| Idempotency.IdempotencyRepository.Validate | services/usercenter/domain/idempotency.go:25-39 | accepts exactly records with key, operation, hash and an expiry in the future |
| Idempotency.IdempotencyRepository.CompleteOne | services/usercenter/repository/mongo/idempotency_repository.go:146-158 | completes exactly a pending, unexpired record of this reservation, else conflict and nothing changes |
| Idempotency.IdempotencyRepository.ReleaseOne | services/usercenter/repository/mongo/idempotency_repository.go:160-168 | removes the document only while this reservation holds it |
| Idempotency.IdempotencyRepository.RenewOne | services/usercenter/repository/mongo/idempotency_repository.go:170-190 | moves the lease end of exactly a pending, unexpired record of this reservation; invalid, lost and renewed are told apart |
| Idempotency.IdempotencyRepository.RecoverExpired | services/usercenter/repository/mongo/idempotency_repository.go:192-207 | deletes exactly the pending records whose lease or life has ended, and counts them |
| LeaseProtocol.SoloReserve | services/usercenter/repository/mongo/idempotency_repository.go:70-144 | the protocol's steps, taken without interference, decide and store what the repository's Reserve does |
| LeaseProtocol.RunKeepsInv | services/usercenter/components/domain_auth_component.go:371-567 | over every interleaving of any number of callers, crashes, clocks and lost acknowledgements: each phase's facts, attribution of the stored record, and the history of completions |
| LeaseProtocol.RepliesAreExecuted | services/usercenter/components/domain_auth_component.go:371-598 | every successful reply repeats bytes that an execution of the same operation and request hash returned and that were stored |
| LeaseProtocol.RepliesAgree | services/usercenter/components/domain_auth_component.go:371-567 | while no clock has reached a completed record's expiry there is at most one completion, it is the stored document, and all successful replies carry its bytes and ask for its request |
| LeaseProtocol.RepliesRepeatTheRecord | services/usercenter/components/domain_auth_component.go:371-598 | from any reachable state with a completed record, everybody who gets a reply before a clock reaches its expiry asks for its request and gets its bytes |
| LeaseProtocol.ExpiryAllowsASecondAnswer | services/usercenter/components/domain_auth_component.go:371-490 | from any state whose record's expiry some clock reads, any newcomer with any request and positive time to live can execute and be answered anything |
| LeaseProtocol.AgreementEndsAtExpiry | services/usercenter/components/domain_auth_component.go:371-567 | from every reachable state with a completed, unlapsed record, all replies up to a clock reading repeat the record if and only if the reading is before its expiry |
| LeaseProtocol.HolderAsksForTheRecord | services/usercenter/repository/mongo/idempotency_repository.go:119-143 | in every run the stored record asks for exactly what the worker holding its reservation asks for |
| LeaseProtocol.DisplacedForever | services/usercenter/repository/mongo/idempotency_repository.go:128-190 | a displaced reservation can never again complete, renew or release, whatever runs next |
| LeaseProtocol.LeaseProtectsHolder | services/usercenter/repository/mongo/idempotency_repository.go:95-143 | no step of anybody but its holder changes a pending record while the clock it acts by is before lease end and expiry |
| LeaseProtocol.LeaseHolds | services/usercenter/repository/mongo/idempotency_repository.go:95-207 | over whole runs: until some clock reaches lease end or expiry, or the holder moves, the pending record stays |
| LeaseProtocol.CompletedStays | services/usercenter/repository/mongo/idempotency_repository.go:146-207 | over whole runs: a completed record stays until some clock reaches its expiry |
| KeyLocks.LockTable.Acquire | services/usercenter/components/domain_auth_component.go:569-579 | the key's entry, made if there is none, with one reference more; the table becomes that of the run model |
| KeyLocks.LockTable.Release | services/usercenter/components/domain_auth_component.go:581-588 | one reference less, and the key's entry dropped at zero, as in the run model |
| KeyLocks.RunKeepsInv | services/usercenter/components/domain_auth_component.go:376-381 | over every interleaving of callers that acquire, lock, unlock and release |
| KeyLocks.OneInsidePerKey | services/usercenter/components/domain_auth_component.go:376-381 | in every run two callers inside for one key are the same caller, and all callers of a key hold one entry |
| KeyLocks.EntryLivesWithCallers | services/usercenter/components/domain_auth_component.go:569-588 | a key has an entry if and only if some caller of it is between acquire and release, and refs is the number of those callers |
| KeyLocks.WaitersWaitForSomebody | services/usercenter/components/domain_auth_component.go:376-381 | a caller whose lock is refused waits for another caller of the same key that is inside |
| BattleRoom.Room.Validate | services/battle/domain/room.go:61-71 | accepts exactly valid rooms, and names the header before the players |
| BattleRoom.Room.AddPlayer | services/battle/domain/room.go:73-88 | adds a valid, new player under their own id; errors change nothing; validity and keying are kept |
| BattleRoom.Room.UpdatePlayer | services/battle/domain/room.go:90-102 | replaces a valid, present player; the set of players stays |
| BattleRoom.Room.AdvanceTick | services/battle/domain/room.go:104-113 | a valid room gains one tick and one version; an invalid one stays as it is |
| BattleRoom.Room.Clone | services/battle/domain/room.go:115-125 | a new object with the same state |
| DeltaLog.RecordDelta | services/battle/components/room_manager.go:146-159 | the delta lists exactly the players that changed and exactly the keys that went |
| DeltaLog.DeltaStepExact | services/battle/components/room_manager.go:146-159 | applying a recorded delta to the old state gives the new one if and only if the new one keeps every player under their own id |
| DeltaLog.ComposeDeltas | services/battle/components/room_manager.go:166-203 | the nested loops compute the fold of the log from the client's version, whatever order the maps are visited in |
| DeltaLog.ComposeRefines | services/battle/components/room_manager.go:166-203 | for every pair of versions, composing succeeds if and only if the log reaches back to the older one, and the result takes the room as it was then to exactly the newer state |
| DeltaLog.AppendKeepsLog | services/battle/components/room_manager.go:159-163 | appending and trimming keep the log contiguous, matching the room's past, ending at its version and within its size |
| RoomManagement.RoomManager.Create | services/battle/components/room_manager.go:33-51 | succeeds exactly for a valid, new room that could be saved; a failure changes nothing; agreement of memory, store and log is kept |
| RoomManagement.RoomManager.Mutate | services/battle/components/room_manager.go:53-77 | succeeds exactly when callback, tick and save do; a failed tick or save leaves memory, store and log as before; a success keeps their agreement and forgets no past version |
| RoomManagement.MutateKeepsAgreement | services/battle/components/room_manager.go:53-77 | a mutation whose callback keeps identity, version and keys carries the agreement to the new version |
| RoomManagement.AdmitKeepsAgreement | services/battle/components/room_manager.go:46-48 | a room that enters memory, created or loaded, keeps the agreement |
| RoomManagement.RoomManager.RestoreByPlayerID | services/battle/components/room_manager.go:113-137 | a copy of a room that lists the player, from memory or else from the store; no room already in memory is replaced |
| RoomManagement.LoadIsNew | services/battle/components/room_manager.go:117-136 | a snapshot listing a player whom no room in memory lists belongs to a room that is not in memory |
| RoomManagement.RoomManager.AnswerRestore | services/battle/components/room_manager.go:94-111 | the reply takes a client from its version to exactly the cloned room; NOOP exactly at that version; incremental exactly when the log as it is now reaches back |
| RoomManagement.RoomManager.RestoreByPlayerIDSince | services/battle/components/room_manager.go:94-111 | the reply is right although any mutations, failing or not, creations and loads happen between cloning the room and copying the log |
| Lobby.SettleConserves | services/lobby/components/player_component.go:162-194 | a settlement keeps every balance equal to the player's ledger sum and every version one plus the player's entries |
| Lobby.SettleKeepsNonNegative | services/lobby/repository/mongo/asset_repository.go:44-71 | a settlement that goes through keeps all balances non-negative if and only if its delta is not -2^63 |
| Lobby.LeastDeltaOverdraws | services/lobby/repository/mongo/asset_repository.go:49-52 | the concrete overdraft |
| Lobby.SettleKeepsInv | services/lobby/components/player_component.go:136-197 | conservation, unique settlement ids, one default player an account, and 64-bit range survive a settlement |
| Lobby.EnsureKeepsInv | services/lobby/components/player_component.go:71-109 | and a first login |
| Lobby.Database.FindSettlement | services/lobby/repository/mongo/ledger_repository.go:38-51 | finds an entry of the id if and only if the ledger has one |
| Lobby.Database.AppendLedger | services/lobby/repository/mongo/ledger_repository.go:24-36 | appends a valid settlement under a new id; otherwise the ledger stays |
| Lobby.Database.IncrementAssets | services/lobby/repository/mongo/asset_repository.go:44-71 | the conditional increment, with its error cases; nothing changes on an error |
| Lobby.Database.Settle | services/lobby/components/player_component.go:162-194 | the writes of the closure are one transaction: all of it, or nothing after any error at any point |
| Lobby.Database.CreatePlayer | services/lobby/components/player_component.go:71-109 | the same for the first login |
| LobbyRuns.RunKeepsInv | services/lobby/components/player_component.go:55-284 | from every sound store, over every interleaving of logins, settlements, resubmissions and restores, with faults and lost acknowledgements anywhere |
| LobbyRuns.BalancesAreLedgerSums | services/lobby/components/player_component.go:136-197 | in every run each balance is the sum of the player's ledger deltas, the version is one plus the entries, and none is negative unless some applied delta was -2^63 |
| LobbyRuns.LedgerOnlyGrows | services/lobby/repository/mongo/ledger_repository.go:24-36 | whatever runs next, the ledger so far stays its prefix |
| LobbyRuns.SettlementsApplyOnce | services/lobby/components/player_component.go:136-225 | a settlement id has one entry, at most one submission is told it applied it, and every success reports a stored entry |
| LobbyRuns.FirstLoginsAgree | services/lobby/components/player_component.go:55-134 | all successful logins of an account name one player, and at most one created it |
| LobbyRuns.NothingIsHalfCreated | services/lobby/components/player_component.go:89-109 | in every run players and assets exist together, and a player without a snapshot is one the store was started with |
| LobbyRuns.NoopIsSound | services/lobby/components/player_component.go:256-265 | a state version names one currency map: a client answered NOOP holds what the snapshot says |
| LobbyRuns.SnapshotsFollowAssets | services/lobby/components/player_component.go:89-194 | from a store in which every player has a snapshot, as from the empty one, in every run every player has one and it equals the assets |
| LobbyRuns.NoopIsCurrent | services/lobby/components/player_component.go:227-265 | and a client about to be answered NOOP holds what the player's assets say at that moment |
| LobbyRuns.BackfillExact | services/lobby/components/player_component.go:233-251 | a restore's own write keeps the snapshots current if and only if the asset version it read is still the stored one |
| LobbyRuns.BackfillCanGoStale | services/lobby/components/player_component.go:233-251 | from any sound store with a player that has no snapshot, some run leaves that player's snapshot behind the assets |
| LobbyRuns.SnapshotsStayCurrentExactly | services/lobby/components/player_component.go:227-251 | the snapshots are current in every run if and only if every player of the store at the start has one |
| RefreshTokens.RefreshTokenRepository.FindValid | services/usercenter/repository/mongo/refresh_token_repository.go:53-70 | finds an unrevoked, unexpired token of the hash if and only if there is one |
| RefreshTokens.RefreshTokenRepository.Revoke | services/usercenter/repository/mongo/refresh_token_repository.go:72-84 | marks exactly an unrevoked token |
| RefreshTokens.RefreshTokenRepository.Rotate | services/usercenter/repository/mongo/refresh_token_repository.go:86-113 | marks the old token and inserts the new one, or changes nothing; after any failure the old token is as usable as before |
| AuthRuns.RunKeepsInv | services/usercenter/components/domain_auth_component.go:217-369 | over every interleaving of logins, refreshes, revocations and expiries, with faults and lost acknowledgements anywhere |
| AuthRuns.ChainHasOneLiveToken | services/usercenter/components/domain_auth_component.go:321-345 | of all the tokens that rotations made out of one, at most one is live, and account and install id are the same all along |
| AuthRuns.RotatedAtMostOnce | services/usercenter/components/domain_auth_component.go:321-345 | two successful refreshes of one token are the same call |
| AuthRuns.LoginsAgree | services/usercenter/components/domain_auth_component.go:617-665 | successful logins name the same account if and only if they are of the same subject, at most one created it, and accounts and identities exist together |
| Sessions.RedisStore.Create | services/gateway/session/redis_store.go:53-70 | stores a record that still has time to live under an unused id |
| Sessions.RedisStore.Swap | services/gateway/session/redis_store.go:134-152 | replaces the record exactly when the stored one is the expected one and the new one has time to live |
| Sessions.RunKeepsInv | services/gateway/session/session.go:209-358 | over every interleaving of opens, disconnects, resumes and removals |
| Sessions.EpochCountsResumes | services/gateway/session/session.go:301-358 | a stored session's epoch is one plus the number of calls whose resume of it went through, and its token was accepted from none of them |
| Sessions.TokenAcceptedOnce | services/gateway/session/session.go:301-332 | each resume token is accepted at most once, whoever presents it |
| Sessions.OutdatedDisconnectIsHarmless | services/gateway/session/session.go:262-282 | a disconnect for an older connection or epoch changes nothing, even if the session was resumed after it was read |
| Sessions.EpochsRise | services/gateway/session/session.go:262-358 | no step lowers the epoch of a session that lives on; the token changes exactly when the epoch does; account and player stay |
| Sessions.EpochNeverFalls | services/gateway/session/session.go:209-358 | over whole runs: a session found again has an epoch no lower than before, and at the same epoch the same token |
| Lifecycle.EventIdInjective | services/gateway/session/session.go:395-413 | an event id names session, epoch and kind, whatever characters the session id has |
| Lifecycle.SessionLifecycleConsumer.Accept | services/common/session_lifecycle.go:46-60 | the two maps become those of the reference, and the answer is its decision |
| Lifecycle.AcceptTracksMaximum | services/common/session_lifecycle.go:46-60 | one delivery keeps the latest epoch the maximum if and only if it does not reuse an accepted id for a higher epoch |
| Lifecycle.LatestIsMaximum | services/common/session_lifecycle.go:32-66 | for any loss, duplication and reordering, the latest epoch of a session is the largest delivered |
| Lifecycle.AcceptedOnceInOrder | services/common/session_lifecycle.go:46-60 | no id is accepted twice and accepted epochs of a session never go down |
| Lifecycle.EmittedIdsNameEvents | services/gateway/session/session.go:395-413 | any events the gateway emits satisfy what `LatestIsMaximum` asks of ids |
| DirtySet.NodeRoot.AddDirty | services/common/repository/dbmodel/md/node_root.go:30-51 | whatever order the loop visits the keys in and wherever it stops, the set becomes the marked one; an empty path is refused |
| DirtySet.MarkedIsMinimal | services/common/repository/dbmodel/md/node_root.go:22-51 | after any marks since a reset the keys are exactly the minimal marked paths and each holds the data of its last mark |
| DirtySet.MarksAreCovered | services/common/repository/dbmodel/md/node_root.go:30-51 | every marked path is a key or lies under one, and no key lies under another |
| DirtySet.OrderDoesNotMatter | services/common/repository/dbmodel/md/node_root.go:30-51 | the same paths in any order leave the same keys |
| DirtySet.Node.Save | services/common/repository/dbmodel/md/node.go:51-71 | a save at any depth marks the dot-joined path from the root |
| DirtySet.UnderIsAncestor | services/common/repository/dbmodel/md/node.go:68-71 | with dotless segments, one joined path covers another if and only if its node is an ancestor |
| Breaker.CircuitBreaker.constructor | common/reliability/breaker.go:21-33 | closed, with threshold at least one and a positive reset timeout |
| Breaker.CircuitBreaker.Allow | common/reliability/breaker.go:69-95 | admits and moves to half open as the run model does |
| Breaker.CircuitBreaker.Complete | common/reliability/breaker.go:97-124 | counts, opens, extends and closes as the run model does |
| Breaker.AdmitsExactly | common/reliability/breaker.go:39-124 | after every run of overlapping calls, a call is admitted if and only if the history alone says so: short run of failures, or reset timeout since the last return and no probe since; Closed if and only if the run is below the threshold |
| Breaker.HalfOpenHasOneProbe | common/reliability/breaker.go:69-124 | half open means one call admitted since the last return, still in flight, nothing more let in; any return ends it, a failure reopens, a success closes |
| Breaker.NeverLocksShut | common/reliability/breaker.go:39-124 | when all admitted calls have returned, a call one reset timeout later is admitted |
| Breaker.OpenShutsOut | common/reliability/breaker.go:69-95 | from the threshold on nothing is admitted before the reset timeout has passed |
| TokenBucket.TokenBucket.constructor | common/reliability/token_bucket.go:21-34 | full, with a capacity of at least one and a positive rate |
| TokenBucket.TokenBucket.AllowN | common/reliability/token_bucket.go:40-56 | decides and spends as the run model does; a request for nothing is allowed and changes nothing |
| TokenBucket.TokenBucket.Refill | common/reliability/token_bucket.go:73-81 | adds the rate over the time since the last refill, up to the capacity; time never goes back |
| TokenBucket.AtRateIsValid | common/reliability/token_bucket.go:73-81 | a rate per second is an additive, non-negative law of refilling, as the run theorems ask |
| TokenBucket.TokensAreLeastRoom | common/reliability/token_bucket.go:40-81 | after any requests, at times in any order, the tokens are within 0 and capacity and equal the least room the limit leaves over all stretches |
| TokenBucket.StretchesFitTheLimit | common/reliability/token_bucket.go:40-81 | what any stretch of requests is given fits in the capacity plus the rate over the time it takes |
| TokenBucket.GrantsExactly | common/reliability/token_bucket.go:40-56 | a request is allowed if and only if the limit holds with it for every stretch that ends with it |
| Snowflake.Generator.New | common/idgen/snowflake.go:37-50 | refuses exactly node ids above 1023 |
| Snowflake.Generator.WaitNextMilli | common/idgen/snowflake.go:89-97 | the first clock reading past the given one |
| Snowflake.Generator.Next | common/idgen/snowflake.go:52-72 | the state advances by one stamp of the run model, and the id is that stamp's |
| Snowflake.IdIsSum | common/idgen/snowflake.go:71-71 | shifts and ors put the three fields side by side without overlap, with the time cut to 42 bits |
| Snowflake.ParseUndoesId | common/idgen/snowflake.go:74-79 | parsing gives node and sequence back always, and the time if and only if it is below 2^42 |
| Snowflake.IdsIncrease | common/idgen/snowflake.go:52-97 | whatever the clock does, ids of one generator strictly increase below 2^42 milliseconds |
| Snowflake.IdsGoBack | common/idgen/snowflake.go:71-71 | at 2^42 milliseconds they do not |
| Snowflake.MillisecondIsBounded | common/idgen/snowflake.go:60-69 | at most 4096 ids share a millisecond |
| Snowflake.IdsCollideExactly | common/idgen/snowflake.go:71-71 | two ids are equal if and only if node, sequence and the low 42 bits of the time are; different nodes never collide |

## Left out

- Idempotency.IdempotencyRepository.Reserve: one call undisturbed; the interleaved steps, the missed take-over and its second look are in `LeaseProtocol`.
- LeaseProtocol.RunKeepsInv: one key; that other keys are untouched is stated by the repository class. The path without a coordinator and its plain `Create` are not modelled.
- RoomManagement.RoomManager.Mutate: nothing is claimed about memory, store and log after a callback that reports an error, because the source keeps whatever it wrote.
- RoomManagement.RoomManager.RestoreByPlayerID: the search in memory, the search in the store and the load are one step; the source takes two locks and does not look again in between, so concurrent loads are not covered. Which of several snapshots is the most recent is not modelled.
- LobbyRuns.SettlementsApplyOnce: a replay reports the current balance, not the original one, and a racing submission with other content may be answered with the stored entry, as in the source.
- LobbyRuns.RunKeepsInv: running without a unit of work is not modelled; the service always has one.
- RoomManagement.RoomManager.RestoreByPlayerIDSince: callbacks that fail in between leave the room alone, and all of them leave id, version and keys in order; the source does not enforce this.
- Sessions.RunKeepsInv: the account claim, the local connection maps and the expiry timer's separate read and delete are reduced to steps that may fail and to removals that may happen at any time.
- Snowflake.Generator.Next: a call that waits on a clock that never advances gives no id; the readings are a parameter.
- TokenBucket.TokensAreLeastRoom: reals instead of floating point, so no rounding.
- DirtySet.Node.Save: the list and map containers, and the schema reflection that builds the tree, are not modelled; a node's data is a value, so that a covered ancestor's document carries a later change of its descendant rests on the nodes sharing their data in the source.
- BattleRoom.Room.AddPlayer: the player map is a value inside the room, so aliasing of that map is not captured; `NewRoom` is a loop of `AddPlayer` and is not modelled.
- Widths of versions, ticks and epochs (64-bit unsigned) are not modelled; they are natural numbers. Stored time precision is exact.
- Hashes are injective; UUIDs and random tokens are new, so nobody has named one before it is drawn; bcrypt, trimming, request encoding and message ids of replayed replies are not modelled.
- `ClaimAccount` and `ReleaseAccount`, the in-memory session store, `RetryPolicy`, `Wait` of the token bucket, observers and metrics: easy members, or none of the properties above depends on them.
- Gateway connections, streaming, service discovery, configuration, generated protobuf code and the client: plumbing around these cores.
