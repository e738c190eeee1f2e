# Versioned desired state, converged onto replicas

A Dafny model of the parts of the dashboard that keep versioned desired state and
converge containers onto it by background jobs that may crash, fail their health
gates, race each other and be retried — and proofs of what these jobs keep.

`dafny verify dfyconfig.toml` checks the whole project. One module per component:

- **Central per-service env.** `EnvContent` (base, per-host overrides, what a host
  runs), `CentralEnvStore` and `StoreHistory` (the origin's versioned store),
  `CentralEnvCache` and `CentralEnvResolver` (a peer's cache and the resolver every
  create path asks), `CentralEnvEdits` (patches and concurrent edits), `PeerJob`
  (one peer's convergence decisions), `EnvReplication` (origin, peers, replicas and
  delayed answers as one step system), `SyncLoop` and `SelfRecovery` (the job loop),
  `LocalRoll` and `Release` (rolling one host, releasing a service), `PeerHandlers`
  (a peer's answers to notify and release), `Adopt`.
- **Replica swaps.** `DockerHost` (containers of one service on one host) and
  `RollingReplace` (surge of one).
- **A/B tests.** `AbTest` (lifecycle), `AbRelabel` (the proxy's config pick),
  `AbDrain`, `AbPercentile`.
- **Small cores.** `ContainerCache`, `AuthStore` and `SharedUsers` (one dashboard's
  side of the shared user list, and any number of them at one key), `RateLimit`;
  `Text` holds the decimal rendering and string order the names and labels rely on.

Conventions. A class method is one mutex-protected section and is specified by a
function of the old state; the lemmas are about those functions and about step
systems built from them. The outcome of a file write, of a Docker call, of a health
gate or of a network call is a parameter (`persisted`, `fates`, `reachable`, …), so
every combination of outcomes is covered. Docker is a set of containers with create,
start, gate and remove steps. The content hash and the salted value hash are
injective. Times are integers; percentiles are over the reals.

## Main results

- Replication agreement: in every reachable state of origin, peers, answers in
  flight and jobs, whatever carries version v on host h holds exactly the env that
  the origin's history gives h at v (`AgreementAlways`); hence equal stamps mean
  equal envs over time (`SameStampSameEnv`) and a peer that reports itself converged
  runs the current env (`ConvergedMeansCurrent`).
- It makes progress: an accepted edit reaches a peer (`EditReachesPeer`), a peer
  behind converges or rolls back (`PeerConverges`, `PeerRollsBack`), a create gets
  the present version (`CreateGetsCurrent`), a failed gate brings the previous
  content back (`LoopRecovers`), requests are served (`RequestsAreServed`), a
  release finishes (`ReleaseFinishes`), and a decision about a test is carried out
  (`DecisionIsCarriedOut`).
- Self-recovery is bounded: automatic reverts never outnumber edits and touches, a
  degraded record is not rolled, and the job loop comes to rest with an explicit
  bound (`RevertsBoundedByEdits`, `DegradedWaitsForAWrite`, `LoopComesToRest`).
- At most one loop, and no lost wake-up on any host whose release jobs do not fail
  (`AtMostOneLoop`, `NoLostWakeUp`); exactly what a failed one loses
  (`FailedReleaseLosesExactly`).
- Surge of one at every moment of a roll (`RollIsSurgeOfOne`), and exactly when a roll
  succeeds and where and why it ends if not (`RollSucceedsExactly`).
- A bounded local roll that reaches its goal or says so (`RollLocal`), and a release
  that deletes the record only when this host and every answering peer is clean,
  exactly unless its last change came after its turn (`DeletedOnlyWhenReleased`).
- Adopt loses no key silently (`AdoptLosesNothing`).
- Edits serialise (`EditsSerialise`, `KeySurvivesOtherEdits`,
  `OverrideSurvivesOtherEdits`), at most once
  (`RetryReplaysOriginalVersion`), with an exact one-step undo
  (`RevertTwiceRestores`).
- A failed version stays out (`FailedVersionStaysOut`, `FailureIsQuarantined`), and
  the resolver fails closed (`UnmanagedExactly`,
  `ManagedCreateNeverUsesTemplateEnv`).
- A/B decisions are irreversible (`AcceptedDecisionStands`,
  `DecisionStandsFromTheStart`), the config pick never moves back, crashes included
  (`ConfigPickNeverMovesBack`), and stays on gated replicas exactly when no ungated
  one was left behind (`GatedForGoodExactly`); the idle drain is sound across proxy
  restarts (`IdleDrainIsSound`, `RestartOnlyDelays`), merged percentiles lie between
  the hosts' own (`MergedPercentileBetween`).
- The container cache is fresh (`CacheIsFresh`), and which callers get a fresh answer
  is exact (`AnswersAreFreshExactly`).
- The shared user list loses no update, though every write stores bytes computed from
  an earlier read: the key is the committed mutations in commit order since the last
  wipe, and each call takes effect once (`ListIsCommittedMutations`, `EachCallOnce`).
- The rate limit bounds every window (`EveryWindowBound`).

Where the code gives less than one might read into it, a lemma says exactly when, or
gives the input that shows it: `EditsSerialise` and `GuessedVersionLosesEdit` (an
`if_version` not yet published when the call reads), `CreateAfterTurnIsMissed` (a
create on a peer after its turn in a release), `EditInTheGapIsUndone` (an edit between
a failed gate's version check and its revert), `UnmanagedExactly` (an unlabelled
service cached with an empty origin counts as managed but is not resolved),
`HandsOutFailedVersionExactly` (a copy read before its version failed here can still be
handed out), `FailedReleaseLosesExactly` (a failed release job swallows a queued sync),
`ForeignRolledExactly` and `UnpinnedExactly` (an empty cached env is a nil list, which
a roll takes for "not pinned" and then replaces unstamped members too),
`RollSucceedsExactly` (an unstamped member can hold the name a pinned roll wants),
`GatedForGoodExactly` (a crash between create and gate leaves a replica that can come
to be the pick), `NamesOutgrowTheirWidth` (the millionth B replica),
`FullLengthIdsRunOut` (test ids of sixteen f's), `AnswersAreFreshExactly` (a list call
after an invalidate may join an older fetch).

One smaller reading of the code: an empty env and no env are the same nil slice, so a
peer whose previous env was empty has nothing to roll back to (`PeerJob.NonEmpty`).

## Model

| member | source | states |
|---|---|---|
| EnvContent.SameHashSameEnv | cmd/dashboard/centralenv_store.go:572-592 | Contents with equal hashes give every host the same env, so a write answered as "identical content" changes no replica. |
| EnvContent.SameHashExactly | cmd/dashboard/centralenv_store.go:572-592 | Hashes are equal exactly when the base and every host's overrides are; a host listed without keys counts as not listed. |
| EnvContent.EffectiveEnvExactly | cmd/dashboard/centralenv_store.go:506-526 | An env resolves exactly when each secret its layered values refer to exists; it has exactly the base's and the host's keys, each with the secret referred to or the value itself, the override first. |
| EnvContent.ServiceNameExactly | cmd/dashboard/validate.go:21 | A service name is 1 to 63 letters, digits, dots, underscores and dashes, the first a letter or a digit. |
| CentralEnvStore.CentralEnvStore.Create | cmd/dashboard/centralenv_store.go:222-274 | Succeeds exactly for a valid, absent service whose file was written; memory stays what a restart would load. |
| CentralEnvStore.CentralEnvStore.Apply | cmd/dashboard/centralenv_store.go:276-332 | Replay by request id, version check, no-op, or a new version with snapshot, ring and state; nothing reaches memory that did not reach the disk. |
| CentralEnvStore.CentralEnvStore.Revert | cmd/dashboard/centralenv_store.go:334-363 | Swaps content with the snapshot under a new version marked reverted, or refuses. |
| CentralEnvStore.CentralEnvStore.Touch | cmd/dashboard/centralenv_store.go:384-419 | New version, same content, a releasing record stays releasing. |
| CentralEnvStore.CentralEnvStore.SetState | cmd/dashboard/centralenv_store.go:421-477 | Only the state changes, in memory exactly when on disk. |
| CentralEnvStore.CentralEnvStore.FinishAdopt | cmd/dashboard/centralenv_store.go:432-436 | Only the adopting flag changes. |
| CentralEnvStore.CentralEnvStore.Delete | cmd/dashboard/centralenv_store.go:479-496 | Removes a record, broken or not, from memory exactly when its file is gone. |
| CentralEnvStore.CentralEnvStore.EffectiveEnvAt | cmd/dashboard/centralenv_store.go:498-526 | The merged, secret-resolved env of a host with the version of the same record copy; a missing secret is an error. |
| CentralEnvStore.CreatedRecord | cmd/dashboard/centralenv_store.go:222-274 | A new record is version 1 of its content, active, with no snapshot and at most its own request remembered. |
| CentralEnvStore.ApplyExactly | cmd/dashboard/centralenv_store.go:276-332 | Exactly when a change is replayed, refused, a no-op or a new version, and every field of the record it leaves. |
| CentralEnvStore.RingAppends | cmd/dashboard/centralenv_store.go:561-570 | The ring takes a new id last and drops the oldest beyond thirty-two. |
| CentralEnvStore.OtherOperationsExactly | cmd/dashboard/centralenv_store.go:334-477 | Every field a revert, a touch, a state change and the end of an adopt leave. |
| CentralEnvStore.OperateExactly | cmd/dashboard/centralenv_store.go:276-477 | A broken or missing record refuses; what was not written to disk does not reach memory; no other service is touched. |
| CentralEnvStore.LoadExactly | cmd/dashboard/centralenv_store.go:148-205 | Which files a restart takes for records, which services it knows to be broken, and which files it ignores. |
| StoreHistory.RunKeepsInvariants | cmd/dashboard/centralenv_store.go:276-405 | Over any run: append-only history, hash matches content, version 1 iff no snapshot, snapshot is the previous version, ring is the last 32 recorded ids, distinct. |
| StoreHistory.StoreFollowsHistory | cmd/dashboard/centralenv_store.go:276-477 | The store itself, over any run of operations on a service, holds the record its history describes, with all those invariants, and touches no other service. |
| StoreHistory.ReplayedIffRemembered | cmd/dashboard/centralenv_store.go:289-301 | A request is a replay exactly when its id is among the last 32 recorded, and then changes nothing. |
| StoreHistory.RetryReplaysOriginalVersion | cmd/dashboard/centralenv_store.go:289-301 | A retried request answers its original version while fewer than 32 newer ids were recorded. |
| StoreHistory.AppendIsLast | cmd/dashboard/centralenv_store.go:561-570 | The ring after an append is the last 32 of everything recorded. |
| StoreHistory.RevertTwiceRestores | cmd/dashboard/centralenv_store.go:334-363 | Two reverts restore the content, two versions on. |
| StoreHistory.RevertUndoesEdit | cmd/dashboard/centralenv_store.go:334-363 | A revert after an edit restores the content edited away. |
| StoreHistory.TouchThenRevertIsContentNoOp | cmd/dashboard/centralenv_store.go:334-405 | A touch then a revert leave the content as it was, two versions on. |
| CentralEnvCache.CentralEnvCache.PutWithHealthcheck | cmd/dashboard/centralenv_cache.go:159-205 | Refuses older and quarantined versions, refreshes the same version in place, rotates a newer one; other services untouched. |
| CentralEnvCache.CentralEnvCache.RollBack | cmd/dashboard/centralenv_cache.go:207-216 | Records the failed version and, when given, restores the previous env. |
| CentralEnvCache.CentralEnvCache.ClearFailed | cmd/dashboard/centralenv_cache.go:218-240 | Forgets the failed version and nothing else. |
| CentralEnvCache.PutExactly | cmd/dashboard/centralenv_cache.go:159-205 | Exactly which offers are older, failed before or not saved, and every field an accepted one leaves: a newer one rotates, the same version keeps. |
| CentralEnvCache.RollBackExactly | cmd/dashboard/centralenv_cache.go:207-240 | Every field a rollback, with or without an env, and a cleared failure leave. |
| CentralEnvCache.FailedVersionStaysOut | cmd/dashboard/centralenv_cache.go:159-220 | After a rollback from f no sequence of puts makes a version in (current, f] current or an unusable entry usable, until one above f is accepted; then it stays above f. |
| CentralEnvCache.FailedGateStaysOut | cmd/dashboard/centralenv_cache.go:207-216 | From the rollback itself on: an entry only marked stays exactly as it is, a restored one stays on the older env, until a version above the failed one is accepted. |
| CentralEnvCache.PutsNeverGoBack | cmd/dashboard/centralenv_cache.go:159-205 | Puts never lower the cached version or drop the entry. |
| CentralEnvCache.OnlyRollBackGoesBack | cmd/dashboard/centralenv_cache.go:159-240 | Without a rollback that restores something, no cache operation lowers the version. |
| CentralEnvResolver.CentralEnv.Resolve | cmd/dashboard/centralenv.go:147-222 | Own store first, then the origin's answer filtered by the cache as it is when the answer is back, then the usable copy read before; otherwise refused; the cache ends up as the put left it. |
| CentralEnvResolver.CentralEnv.ResolveForPeer | cmd/dashboard/centralenv.go:224-236 | Only the owner answers, with the host's effective env or an error. |
| CentralEnvResolver.CentralEnv.Accept | cmd/dashboard/centralenv.go:238-246 | A shipped env is cached only on a host that does not own the service. |
| CentralEnvResolver.UnmanagedExactly | cmd/dashboard/centralenv.go:136-222 | For all inputs: Resolve says unmanaged exactly when Managed says no, or the service is not owned, unlabelled and cached with an empty origin. |
| CentralEnvResolver.ManagedExactly | cmd/dashboard/centralenv.go:158-222 | On a host that does not own the service the answer of its origin is handed out unless the cache refuses it as older or failed here, else the copy from that origin unless it failed here, else nothing. |
| CentralEnvResolver.ManagedEnvHasSource | cmd/dashboard/centralenv.go:147-222 | Every env handed out is the store's, the origin's answer, or this host's usable copy from the same origin, with its own version, whatever happens to the cache meanwhile. |
| CentralEnvResolver.HandsOutFailedVersionExactly | cmd/dashboard/centralenv.go:158-222 | On a peer an env handed out has the version quarantined here exactly when the copy read before the fetch is usable and from the origin asked, the answer is missing or refused, and that copy's version failed meanwhile; never if the cache was left alone. |
| CentralEnvResolver.StampEnvLabels | cmd/dashboard/centralenv.go:275-286 | Copies the labels without compose's and stamps origin and version. |
| CentralEnvResolver.StampReadsBack | cmd/dashboard/centralenv_sync.go:588-605 | A stamp reads back as the member's version, not foreign; other labels survive, compose's do not. |
| CentralEnvResolver.ManagedCreateNeverUsesTemplateEnv | cmd/dashboard/docker.go:1002-1034 | A create of a managed service is refused or runs exactly the resolved env under its stamp. |
| CentralEnvEdits.BuildSet | cmd/dashboard/centralenv_peer.go:85-180 | The request's sets and unsets on base and overrides produce exactly the patched content and the changed keys; each refusal has its condition. |
| CentralEnvEdits.AllResolvableExactly | cmd/dashboard/centralenv_peer.go:145-160 | An edit is refused for its secret references exactly when some value of the base or of any host's overrides names a secret that does not exist; an accepted one resolves on every host. |
| CentralEnvEdits.ReportedKeysExactly | cmd/dashboard/centralenv_peer.go:104-141 | A key is reported exactly when the base or some host's overrides got another value for it or lost one they had or were just given. |
| CentralEnvEdits.UnreportedKeysKept | cmd/dashboard/centralenv_peer.go:104-141 | A key the edit does not report has the same value, or stays absent, on every host. |
| CentralEnvEdits.HostIdentityExactly | cmd/dashboard/centralenv_peer.go:192-194 | An override is refused for its host exactly when the name is empty, too long or holds a forbidden character. |
| CentralEnvEdits.WorldStepsExactly | cmd/dashboard/centralenv_peer.go:85-180 | A commit adds a version exactly when it is saved, no replay, at if_version and of other content. |
| CentralEnvEdits.CommitFatesExactly | cmd/dashboard/centralenv_store.go:289-326 | Which commits publish and which change nothing, on the record alone. |
| CentralEnvEdits.RunKeepsSerial | cmd/dashboard/centralenv_peer.go:85-180 | Over any interleaving, every version is a touch or a revert of the version before, or an edit's patch of the version it read. |
| CentralEnvEdits.EditsSerialise | cmd/dashboard/centralenv_peer.go:85-180 | A successful set that is no replay leaves exactly its patch of the content it read; that is its patch of the content at if_version exactly when the two differ in nothing the request leaves alone, so always if that version was published at the read. |
| CentralEnvEdits.SamePatchExactly | cmd/dashboard/centralenv_peer.go:85-180 | A request gives the same content on two records exactly when they agree on every key and host it does not mention. |
| CentralEnvEdits.KeySurvivesOtherEdits | cmd/dashboard/centralenv_peer.go:85-180 | A base key set by any edit survives touches and edits of other keys that read the record after it. |
| CentralEnvEdits.OverrideSurvivesOtherEdits | cmd/dashboard/centralenv_peer.go:85-180 | The same for a key of one host's overrides, against such edits of the base, other hosts and other keys. |
| CentralEnvEdits.GuessedVersionLosesEdit | cmd/dashboard/centralenv_peer.go:85-180 | An if_version ahead of the read overwrites an edit in between, for every record and gap. |
| PeerJob.Prepare | cmd/dashboard/centralenv_sync.go:1024-1064 | Captures the rollback target before the fetch rotates the cache, then plans onto the put's outcome. |
| PeerJob.GiveUp | cmd/dashboard/centralenv_sync.go:1087-1108 | A failed gate marks the version and restores the previous env when there is one. |
| PeerJob.PlanExactly | cmd/dashboard/centralenv_sync.go:1024-1064 | A job rolls exactly an answer its cache accepted, or the usable cached env if the answer was refused as older or failed here; it stops otherwise. |
| PeerJob.RollbackExactly | cmd/dashboard/centralenv_sync.go:1046-1054 | Its rollback target is exactly the env current before the fetch if older than the target, else the previous one; an empty one counts as none. |
| PeerJob.RetryKeepsRollbackTarget | cmd/dashboard/centralenv_sync.go:1024-1064 | A job that finds its target already cached still rolls back to what ran before that fetch. |
| PeerJob.PlanIsSound | cmd/dashboard/centralenv_sync.go:1024-1064 | The plan targets the usable cached version, rolls back only to an older one, and a refused version is newer than the target. |
| PeerJob.UnpinnedExactly | cmd/dashboard/centralenv_sync.go:1024-1064 | The planned roll is handed a nil env list, hence not pinned, exactly when the put is refused and the usable cached env to keep is empty. |
| PeerJob.FailureIsQuarantined | cmd/dashboard/centralenv_sync.go:1078-1108 | Whatever became of the cache meanwhile: after a failed gate it is on the previous env and usable; without one the version is quarantined exactly unless the cache moved past it. |
| EnvReplication.AgreementAlways | cmd/dashboard/centralenv_sync.go:995-1116 | Over every run: caches (current and previous, also as read by creates under way), stamped replicas, answers in flight, resolved creates and job targets agree with the origin's history, which only grows. |
| EnvReplication.StepAgrees | cmd/dashboard/docker.go:1708-1738 | Every single step keeps agreement: edits, delayed answers, creates, copies, rolls, rollbacks, crashes. |
| EnvReplication.ResolveAgrees | cmd/dashboard/centralenv.go:147-222 | What Resolve hands out and caches agrees with history, with any other steps between its read of the cache and its put. |
| EnvReplication.SameStampSameEnv | cmd/dashboard/centralenv_store.go:506-526 | Two replicas of a host with the same stamp run the same env, however far apart in time. |
| EnvReplication.ConvergedMeansCurrent | cmd/dashboard/centralenv_sync.go:748-779 | A peer at or past the current version runs it: every stamped replica has exactly that host's current env, and in an adopt there are no others. |
| EnvReplication.EditReachesPeer | cmd/dashboard/centralenv_sync.go:995-1084 | An accepted edit reaches a peer: its next job that reaches the origin caches and rolls exactly what the edit's content gives that host, as the next version. |
| EnvReplication.ConvergedExactly | cmd/dashboard/centralenv_sync.go:748-779 | After any run a peer counts as converged for the current version exactly when its cache and every stamped replica are at it, and in an adopt none is unstamped. |
| EnvReplication.PeerConverges | cmd/dashboard/centralenv_sync.go:995-1084 | A peer behind the origin ends its job with the present version cached and rolled under its stamp. |
| EnvReplication.PeerRollsBack | cmd/dashboard/centralenv_sync.go:1078-1108 | If its gate fails it rolls what ran before again, with the cache back on that and the failed version marked. |
| EnvReplication.CreateGetsCurrent | cmd/dashboard/docker.go:1002-1034 | A create that reaches the origin runs the present version under its stamp, from the store on the origin itself. |
| EnvReplication.UnstampedCreateIsLeftAlone | cmd/dashboard/centralenv.go:158-222 | A create from an unstamped template on a host that never cached the service resolves and caches nothing. |
| EnvReplication.OriginRolls | cmd/dashboard/centralenv_sync.go:427-545 | The origin's job rolls its present version. |
| EnvReplication.HostStepsExactly | cmd/dashboard/docker.go:1708-1738 | What copies, removals, unstamped creates, a dropped cache and a crash leave of a host. |
| EnvReplication.CacheStepsExactly | cmd/dashboard/centralenv.go:238-246 | A shipped env goes through the cache's own test, never on the origin; a cleared failure changes only that. |
| SyncLoop.EnvSyncManager.Request | cmd/dashboard/centralenv_sync.go:255-282 | Starts a loop or marks the service dirty. |
| SyncLoop.EnvSyncManager.RequestPeer | cmd/dashboard/centralenv_sync.go:266-282 | The same, and the peer's target moves to the origin asked for, up to the version asked for and never down. |
| SyncLoop.EnvSyncManager.TakePeerTarget | cmd/dashboard/centralenv_sync.go:995-1003 | A peer's job reads the target as it is and takes the adopt mark once. |
| SyncLoop.EnvSyncManager.RequestPeerRelease | cmd/dashboard/centralenv_release.go:68-79 | The same for a release, remembering its origin. |
| SyncLoop.EnvSyncManager.TakePeerRelease | cmd/dashboard/centralenv_release.go:101-107 | Hands the pending release out once. |
| SyncLoop.EnvSyncManager.EndOfJob | cmd/dashboard/centralenv_sync.go:295-312 | Clears dirty and goes on if it was set or the store moved on; stops with a version above target only if degraded, broken or gone. |
| SyncLoop.AtMostOneLoop | cmd/dashboard/centralenv_sync.go:275-314 | At most one loop per service, exactly while it is marked running. |
| SyncLoop.NoLostWakeUp | cmd/dashboard/centralenv_sync.go:258-314 | On any host whose release jobs do not fail: a request without a later read has one coming, or a release that withdraws it; once the loop stopped, nothing is unserved. |
| SyncLoop.NothingUnservedAtRest | cmd/dashboard/centralenv_sync.go:258-314 | So from a manager without a loop, over any run: at rest, nothing is unserved. |
| SyncLoop.OwnerNeverLoses | cmd/dashboard/centralenv_sync.go:284-314 | On a host that owns the service the same holds without any proviso. |
| SyncLoop.RequestsAreServed | cmd/dashboard/centralenv_sync.go:258-314 | A request at rest gets a job, which serves it and ends at rest; one during that job, after its read, gets another. |
| SyncLoop.ReleasesAreServed | cmd/dashboard/centralenv_release.go:68-107 | A release asked for at rest gets its job, which withdraws what was queued with it. |
| SyncLoop.FailedReleaseLosesExactly | cmd/dashboard/centralenv_sync.go:284-314 | A failed release job stops the loop with an unserved request exactly when one was unserved, dirty was not set and nothing is asked before the job ends; otherwise nothing is lost. |
| SyncLoop.ReleaseJobLosesRequest | cmd/dashboard/centralenv_sync.go:284-314 | From the start such a state is reached, by a sync and a release asked for during one job. |
| SelfRecovery.RevertsBoundedByEdits | cmd/dashboard/centralenv_sync.go:547-578 | Automatic reverts number at most the edits and touches, and a degraded record is not being rolled. |
| SelfRecovery.EditInTheGapIsUndone | cmd/dashboard/centralenv_sync.go:547-578 | In every state past the version check an edit landing before the revert is taken back, and the content that just failed becomes the next version to roll. |
| SelfRecovery.FailedGateReverts | cmd/dashboard/centralenv_sync.go:547-578 | A failed gate of the current version is reverted exactly unless that version is itself a revert; then, or without a snapshot or a saved file, it is degraded; a newer version is left alone. |
| SelfRecovery.LoopRecovers | cmd/dashboard/centralenv_sync.go:284-578 | A version that fails its gate is replaced by the previous content as the next version, rolled by the same loop; if that is healthy the loop stops on it, if not it is degraded. |
| SelfRecovery.JobRollsNewest | cmd/dashboard/centralenv_sync.go:483-500 | A write between a job's two reads: the newest version is rolled, never the one in between. |
| SelfRecovery.DegradedWaitsForAWrite | cmd/dashboard/centralenv_sync.go:453-457 | Without a write or an operator's release, requests leave a degraded record exactly as it is. |
| SelfRecovery.LoopComesToRest | cmd/dashboard/centralenv_sync.go:284-314 | The loop's own steps are bounded by what it had left plus twenty per outside event. |
| SelfRecovery.StepMeasure | cmd/dashboard/centralenv_sync.go:427-578 | Each own step lowers the measure (pending jobs, then steps of the job); an outside event raises it by at most twenty. |
| SelfRecovery.LoopIsNeverStuck | cmd/dashboard/centralenv_sync.go:427-545 | Until it stops, one of its own steps is possible. |
| SelfRecovery.StoppedIsCaughtUp | cmd/dashboard/centralenv_sync.go:295-312 | It stops only at the stored version, or with the record degraded or gone. |
| LocalRoll.RollOnce | cmd/dashboard/centralenv_sync.go:666-712 | One roll with an env list leaves nothing stale or an error that has its reason on the host as found; with or without one, what it may remove. |
| LocalRoll.RollLocal | cmd/dashboard/centralenv_sync.go:624-720 | Ends after at most two rolls with no stale member, a straggler warning (never for release or adopt) or an error that has its reason; with time for three rolls never for want of time, and undisturbed always done; with an env list, its replicas run exactly that list under its stamp, and outside adopt only stamped members and its own are removed. |
| LocalRoll.ForeignRolledExactly | cmd/dashboard/docker.go:1655-1708 | A successful roll replaces an unstamped live member exactly when it is an adopt or its env list is nil. |
| LocalRoll.RollReachesGoal | cmd/dashboard/centralenv_sync.go:624-665 | After a successful roll nobody interfered with, no member is stale for the mode. |
| LocalRoll.RollKeeps | cmd/dashboard/centralenv_sync.go:607-623 | What a pinned roll removes outside adopt carried a stamp or was its own. |
| Release.ReleaseOnePeer | cmd/dashboard/centralenv_release.go:211-271 | Each verdict exactly, over what the peer answered: nothing there, no answer, too old for it, released by its own word or by the first poll that tells, failed otherwise. |
| Release.ReleasePeers | cmd/dashboard/centralenv_release.go:172-197 | Fails exactly when there is a mesh and the job's time ran out or some capable peer was neither clean nor confirmed. |
| Release.DeletedOnlyWhenReleased | cmd/dashboard/centralenv_release.go:124-271 | Over any run of failures, crashes, resumed releases and changes of any host at any moment: the record goes only after every listed peer's turn, none of which failed; and this host and every listed peer that knows of central env is clean then, exactly unless the last change of that host came after its turn in that job and left it unclean. |
| Release.UntouchedStaysClean | cmd/dashboard/centralenv_release.go:172-271 | A host nobody changes is clean from the end of its turn on, through every failure, crash and restart. |
| Release.CreateAfterTurnIsMissed | cmd/dashboard/centralenv_release.go:172-271 | On any origin with a record and a clean peer, a create on that peer right after its turn goes unnoticed and the record is deleted. |
| Release.ReleaseFinishes | cmd/dashboard/centralenv_release.go:124-209 | From any record on, a release whose roll leaves nothing stamped and whose capable peers are clean deletes the record. |
| Release.PeerIsWaitedFor | cmd/dashboard/centralenv_release.go:231-271 | A peer asked to release is waited for while its job runs and counted as released once it reports that nothing is left. |
| Release.OutOfTurnNothing | cmd/dashboard/centralenv_release.go:124-197 | A second start joins the job under way, a peer is asked once per job, and only a known peer counts. |
| Release.ReleaseEnvExactly | cmd/dashboard/centralenv_release.go:288-302 | A peer unstamps onto the origin's answer, else onto its own usable, non-empty copy from that origin. |
| Release.RunPeerRelease | cmd/dashboard/centralenv_release.go:278-339 | Exactly when it ends converged: then no stamped member and no cached env is left; undisturbed it does; what it recreates runs the env found; otherwise the cache stays. |
| Release.UnAdopt | cmd/dashboard/centralenv_release.go:357-387 | The record goes exactly if nothing is stamped or unstamping it succeeded (undisturbed it does) and its file could be removed; it is left releasing exactly if not. |
| Release.RunRelease | cmd/dashboard/centralenv_release.go:124-170 | Exactly when the record is deleted: its env resolves, this host's roll left nothing stamped (undisturbed it does), every peer's turn was clean, the file could be removed; this host still is unstamped then unless others brought a stamp meanwhile. |
| PeerHandlers.HandleNotify | cmd/dashboard/centralenv_peer.go:364-421 | Of the notices taken, 200 exactly on an idle host whose listing succeeds and shows it converged; else 202, with exactly the target, the adopt mark and the loop asked for; 400, 409 and 503 exactly for malformed ones, strangers and a host without propagation, which change nothing. |
| PeerHandlers.HandleRelease | cmd/dashboard/centralenv_peer.go:439-515 | 200 means nothing stamped is left and the cache and target are gone; 202 that the pending release of that origin and the loop were asked for; nothing is touched unless the origin confirms the release and the containers could be listed. |
| Adopt.SubtractImageEnv | cmd/dashboard/centralenv.go:292-312 | The container's entries, last duplicate winning, minus those the image gives the same value. |
| Adopt.SplitExactly | cmd/dashboard/centralenv.go:292-312 | An entry is a key without the sign, the first equals sign, and anything. |
| Adopt.ValidKeysSplitBack | cmd/dashboard/centralenv_store.go:555-559 | A key is accepted exactly when it has no NUL and every entry made of it splits back into it and its value. |
| Adopt.ValidContentExactly | cmd/dashboard/centralenv_store.go:536-553 | Content is accepted exactly when all its keys are and every override is for a host that is not blank; then every entry of every host's env splits back. |
| Adopt.SeenIsLast | cmd/dashboard/centralenv.go:292-312 | The last entry of a key is the one that counts. |
| Adopt.OverlayGivesBackExactly | cmd/dashboard/centralenv.go:288-312 | Image env overlaid with it is the container's env exactly when the container has every key of the image. |
| Adopt.CollectImports | cmd/dashboard/centralenv_adopt.go:692-737 | No blocker exactly when every import is sound and base imports of a key agree; then base sources and override keys are the request's. |
| Adopt.DiffHost | cmd/dashboard/centralenv_adopt.go:749-766 | Peer-only, origin-only and differing keys of a host, by hash. |
| Adopt.AdoptEnvDiff | cmd/dashboard/centralenv_adopt.go:682-836 | The diff of every peer, and as unresolved exactly the keys nobody imports, keeps or accepts to drop. |
| Adopt.AdoptBuildRecord | cmd/dashboard/centralenv_adopt.go:897-938 | Fails exactly when an imported value is gone or changed; else the origin's env with base imports, and overrides with theirs. |
| Adopt.AdoptLosesNothing | cmd/dashboard/centralenv_adopt.go:682-938 | Adoptable and built: each live key of each host is in its effective env or accepted as dropped; override imports keep the host's value, base imports the source's, origin keys the origin's. |
| DockerHost.Docker.Create | cmd/dashboard/docker.go:348-394 | Refused on a taken name or a failing daemon, else the new container exists, not running, not gated. |
| DockerHost.CallsExactly | cmd/dashboard/docker.go:348-394 | What creates, starts, gates, removals and other actors leave of the containers of a host. |
| RollingReplace.NextIndex | cmd/dashboard/docker.go:1429-1442 | One past the highest index in use, or one. |
| RollingReplace.NewNamesAreNew | cmd/dashboard/docker.go:1786-1816 | Names given out are new to the members scanned and pairwise distinct. |
| RollingReplace.PrepareReplaceTemplate | cmd/dashboard/docker.go:1649-1806 | Exactly when it succeeds, and each refusal: no image, nothing live, host configuration a recreate would drop, nothing to clone, edits of a centrally managed env, missing secrets, conflicting edits; else what is replaced, the running ones as the replacement set, exact env and labels, free names. |
| RollingReplace.EditsChangeOnlyAgreed | cmd/dashboard/serviceenv.go:68-119 | Merged edits give edited keys their resolved value, keep all others, and change no running value that was not agreed to. |
| RollingReplace.EditsTakenExactly | cmd/dashboard/serviceenv.go:68-119 | Edits are taken never for a centrally managed env, else exactly when their secrets exist and every running value they change was agreed to. |
| RollingReplace.MembersExactly | cmd/dashboard/docker.go:1655-1684 | A roll replaces no canary, only stamped members if pinned and not an adopt, and counts those running, or all if none is. |
| RollingReplace.RolledMember | cmd/dashboard/docker.go:1708-1760 | A pinned roll's stamp reads back as given, a pinned roll without one leaves none, and the replaced image is remembered unless it is a restart or the same. |
| RollingReplace.RolledLabels | cmd/dashboard/docker.go:1708-1760 | The other labels are the template's, without compose's and those describing the old image. |
| RollingReplace.ClonedExactly | cmd/dashboard/docker.go:1735-1760 | A roll that is not pinned takes env and labels as cloned, without those describing the old image. |
| RollingReplace.RollTemplate | cmd/dashboard/docker.go:2002-2073 | Create, gate, drain one replica at a time, then sweep, up to the first failure: the host ends exactly as Roll says. |
| RollingReplace.RollIsSurgeOfOne | cmd/dashboard/docker.go:2002-2073 | At every moment at least N serving and at most one container more; success leaves N gated running new replicas and no old one; with cleanup an error leaves no ungated one; nothing else is touched. |
| RollingReplace.RollSucceedsExactly | cmd/dashboard/docker.go:2002-2073 | A roll succeeds exactly when each replica is created, started and passes its gate and no container it does not replace holds one of its names; else it ends at the first one for which that fails, with the error that says so. |
| AbTest.AbStore.Put | cmd/dashboard/abtest.go:616-626 | Memory changes in any case, the file when the write succeeds. |
| AbTest.AbStore.Finish | cmd/dashboard/abtest.go:629-660 | Clears the record and appends to a history of at most twenty. |
| AbTest.AppendedKeepsLatest | cmd/dashboard/abtest.go:629-660 | A history keeps the latest twenty, in order. |
| AbTest.AbStore.Mutate | cmd/dashboard/abmanager.go:567-609 | A refused or unclaimed operation changes nothing; an accepted one is put before anything is executed. |
| AbTest.AbortExactly | cmd/dashboard/abmanager.go:756-771 | An abort needs an open, running test; it becomes aborted now, to be relabelled. |
| AbTest.ReconfigureExactly | cmd/dashboard/abmanager.go:792-805 | Split and groups change on an open, running or aborted test, under a new epoch. |
| AbTest.ResetExactly | cmd/dashboard/abmanager.go:807-841 | Without force a reset is refused exactly when B has not drained; it is a new test under a new id without pins. |
| AbTest.DiscardExactly | cmd/dashboard/abmanager.go:843-876 | Exactly which discards are taken; the clock starts now unless B was aborted before. |
| AbTest.PromoteExactly | cmd/dashboard/abmanager.go:878-913 | Exactly which promotes are taken; an aborted B, or one only the proxy aborted yet, needs confirmation. |
| AbTest.MutateExactly | cmd/dashboard/abmanager.go:567-609 | An operation is refused while another holds the lock; else its record replaces the one in memory and is executed exactly if it was saved. |
| AbTest.ApiStepsExactly | cmd/dashboard/abmanager.go:567-609 | Which call runs which operation, and what a start needs. |
| AbTest.AlwaysSound | cmd/dashboard/abmanager.go:741-913 | In all interleavings of calls, executions, ticks, crashes, lost stores and failed writes: op finalize_X means pending X, promoting and discarding mean the matching pending, a pending without finalize op means the matching phase, op start means running with nothing pending. |
| AbTest.AcceptedDecisionStands | cmd/dashboard/abmanager.go:807-913 | An accepted promote or discard is never switched, reset or aborted in any copy of its record. |
| AbTest.DecisionStandsFromTheStart | cmd/dashboard/abmanager.go:807-913 | From a dashboard without a test, whatever came before a successful promote or discard and whatever comes after, it stands in every copy of the record. |
| AbTest.DecisionIsCarriedOut | cmd/dashboard/abmanager.go:1060-1336 | A decided test whose relabel, drain and removal of B succeed is over in memory, on disk and on the host. |
| AbTest.OtherStepsExactly | cmd/dashboard/abmanager.go:1060-1336 | Ticks wait for the lock, write what they change, and take up a test whose replicas are left; a crash goes back to the file. |
| AbTest.AcceptedMeansDecided | cmd/dashboard/abmanager.go:838-913 | A promote or discard that was answered with success is such a decision. |
| AbTest.DecidedRefusesTheRest | cmd/dashboard/abmanager.go:755-913 | A decided record refuses the opposite, a reset, a reconfigure, an abort, and an automatic abort. |
| AbTest.PinsNeverFall | cmd/dashboard/abmanager.go:532-546 | Pin maxima of one test never fall on disk, and in memory only by a crash. |
| AbTest.PinsOnDiskOnlyRise | cmd/dashboard/abmanager.go:1218-1244 | The same over any run. |
| AbRelabel.NewAbIdAfter | cmd/dashboard/abtest.go:119-136 | Exactly when the fresh id sorts after the old one; always for ids shorter than sixteen. |
| AbRelabel.FullLengthIdsRunOut | cmd/dashboard/abtest.go:119-136 | No hex draw sorts after an id of f's at least as long. |
| AbRelabel.CanaryNameOrder | cmd/dashboard/abmanager.go:211-215 | Below a million, string order of B names is index order. |
| AbRelabel.NamesOutgrowTheirWidth | cmd/dashboard/abmanager.go:211-215 | At a million it no longer is. |
| AbRelabel.ConfigPickNeverMovesBack | cmd/dashboard/abmanager.go:128-209 | Over any relabels, failed gates, retries, resets and crashes the replica the proxy reads exists and its generation never decreases. |
| AbRelabel.PickFromTheStart | cmd/dashboard/abmanager.go:128-209 | From a test's start there always is such a replica, of the start's generation or a later one, and without crashes it has passed its gate. |
| AbRelabel.PickStaysGated | cmd/dashboard/abmanager.go:128-209 | Without crashes, from gated replicas, that replica has always passed its gate. |
| AbRelabel.PickExists | cmd/dashboard/abmanager.go:138-146 | There always is exactly such a least replica. |
| AbRelabel.PickIsGated | cmd/dashboard/abmanager.go:138-146 | A replica waiting for its gate sorts last, so it is never read. |
| AbRelabel.UngatedCanSurface | cmd/dashboard/abmanager.go:128-209 | Any ungated replica left behind, of whatever generation, can become the pick by crash-free steps. |
| AbRelabel.GatedForGoodExactly | cmd/dashboard/abmanager.go:128-209 | The pick is gated over every further crash-free run exactly when every replica present has passed its gate. |
| AbRelabel.CrashLeavesUngatedPick | cmd/dashboard/abmanager.go:128-209 | So every crash between create and gate leaves a state from which the proxy may read an ungated replica. |
| AbRelabel.BHost.Relabel | cmd/dashboard/abmanager.go:147-209 | Only replicas still behind are replaced, one surge at a time, by steps of the proved run; success means every gate passed, and then all carry the wanted labels unless a removal failed. |
| AbDrain.AbDrain | cmd/dashboard/abmanager.go:481-530 | Drained exactly at the deadline, or when every proxy reports and the idle clock from the last pin or latest tracking_since has run out. |
| AbDrain.DrainedExactly | cmd/dashboard/abmanager.go:481-530 | Drained exactly at the deadline, or once every host gives a report that counts and the idle time has passed since each pin known and since each began to keep track. |
| AbDrain.ObservePins | cmd/dashboard/abmanager.go:532-546 | The maxima become the largest pins reported for this test and never fall. |
| AbDrain.IdleDrainIsSound | cmd/dashboard/abmanager.go:481-530 | A verdict before the deadline means no proxy served a pinned request from session_idle before now up to its report, though restarted ones forgot earlier pins. |
| AbDrain.RestartOnlyDelays | cmd/dashboard/abmanager.go:481-530 | A proxy restart can only delay the verdict. |
| AbDrain.UnreachableOnlyDelays | cmd/dashboard/abmanager.go:481-530 | So can only an unreachable host. |
| AbDrain.DrainedStaysDrained | cmd/dashboard/abmanager.go:481-530 | The verdict is monotone in time. |
| AbDrain.ObservedPinsOnlyDelay | cmd/dashboard/abmanager.go:481-546 | Persisted pins never hasten it. |
| AbPercentile.AbPercentile | cmd/dashboard/abmanager.go:1422-1450 | Interpolates in the crossing bucket, or the last bound when the rank lies past it; zero for an empty histogram. |
| AbPercentile.PercentileIsLeast | cmd/dashboard/abmanager.go:1422-1450 | The percentile is the least value with q times total samples below it. |
| AbPercentile.PercentileInCrossingBucket | cmd/dashboard/abmanager.go:1434-1448 | It lies inside the bucket where the cumulative count crosses. |
| AbPercentile.PercentileMonotone | cmd/dashboard/abmanager.go:1422-1450 | It is monotone in q. |
| AbPercentile.MergedPercentileBetween | cmd/dashboard/abmanager.go:1422-1463 | The percentile of two merged non-empty histograms lies between the two. |
| AbPercentile.ProxyCounters.Add | cmd/dashboard/abmanager.go:1452-1463 | Counters add up, histograms bucket by bucket with the shorter padded. |
| AbPercentile.DefaultBoundsIncreasing | cmd/dashboard/abmanager.go:1409-1418 | The default bucket edges are positive and increasing. |
| ContainerCache.Cache.Lookup | cmd/dashboard/containercache.go:85-105 | Hit, join or start a fetch, remembering the generation. |
| ContainerCache.Cache.Complete | cmd/dashboard/containercache.go:113-128 | Stores a snapshot as valid only if no invalidate came in between; errors are not cached. |
| ContainerCache.Cache.Invalidate | cmd/dashboard/containercache.go:131-136 | Invalid, next generation. |
| ContainerCache.SectionsExactly | cmd/dashboard/containercache.go:85-136 | What a lookup decides, and every field a fetch that returns or fails and an invalidate leave. |
| ContainerCache.FetchServesItsCallers | cmd/dashboard/containercache.go:85-136 | Who finds nothing to use starts a call and gets its answer, as do those who join; it serves later callers until too old or invalidated; an error leaves nothing. |
| ContainerCache.OvertakenServesOnlyItsOwn | cmd/dashboard/containercache.go:85-136 | A fetch an invalidate overtakes answers its own callers, is valid for nobody else, and the next caller starts a new one. |
| ContainerCache.CacheIsFresh | cmd/dashboard/containercache.go:85-136 | At most one fetch in flight; a valid cache holds a snapshot whose call began after the latest invalidate; an overtaken fetch reaches only its own waiters. |
| ContainerCache.HitsAreFresh | cmd/dashboard/containercache.go:85-136 | Every answer from the cache is of such a snapshot. |
| ContainerCache.AnswersAreFreshExactly | cmd/dashboard/containercache.go:85-136 | Over every run and for every caller: the answer is of a Docker call begun after the invalidate latest at the ask, exactly unless the caller joined a fetch begun before it; joining one of the present generation, starting one or a hit suffices. |
| ContainerCache.JoinerMayGetOlderFetch | cmd/dashboard/containercache.go:92-99 | Joining such a fetch does happen. |
| AuthStore.RunTx | cmd/dashboard/authredis.go:23-46 | One CAS attempt: stores what was computed from the value it read, and only if nothing was written since; a success did, a conflict or refusal did not. |
| AuthStore.Store.MutateUsers | cmd/dashboard/auth.go:215-270 | Success means exactly one write of ours, being this mutation of the value it replaced (or of the copy then held, if the key was gone); an error has its reason in the last attempt, each before having met a conflict; giving up means ten conflicts. |
| AuthStore.SyncFromRedisOrImport | cmd/dashboard/authredis.go:55-103 | Adopts what is there, or seeds only an absent key; fails only if unreachable or after losing every race. |
| SharedUsers.LandingReplacesWhatItRead | cmd/dashboard/authredis.go:23-46 | With any number of dashboards interleaving: what an EXEC stores was computed from the very value it replaces; a seed lands only on an absent key. |
| SharedUsers.KeyFollowsHistory | cmd/dashboard/auth.go:215-270 | Over every run the key is its history applied one change at a time: no update is lost. |
| SharedUsers.ListIsCommittedMutations | cmd/dashboard/auth.go:215-270 | The list is the mutations committed since the last wipe or spoiling, folded in commit order over the seeded list or the first committer's copy. |
| SharedUsers.EachCallOnce | cmd/dashboard/auth.go:215-270 | Each call took effect once if it reports success, never if refused or given up, at most once if its fate is unknown. |
| SharedUsers.CallsReportTruly | cmd/dashboard/auth.go:215-270 | From any initial value, over any run, for every call that ended. |
| SharedUsers.CallAloneSucceeds | cmd/dashboard/auth.go:215-270 | A call alone at the key lands what it computed from the value there, takes it over and reports success, or is refused with nothing written. |
| SharedUsers.OvertakenCallRetries | cmd/dashboard/auth.go:215-270 | A call whose read is overtaken writes nothing; a mutation tries again and gives up after the tenth time. |
| SharedUsers.OthersExactly | cmd/dashboard/authredis.go:55-103 | What wipes, spoiled values, refreshes, restarts and timeouts change. |
| SharedUsers.ComputedExactly | cmd/dashboard/auth.go:215-241 | A mutation works on the list there, or on the own copy if the key is gone; what does not decode is refused; a seed only takes an absent key. |
| RateLimit.RateLimiter.Allow | cmd/auth/ratelimit.go:40-65 | Refill by whole minutes up to five, then take a token or refuse; other keys untouched. |
| RateLimit.RateLimiter.Gc | cmd/auth/ratelimit.go:67-80 | Evicts exactly the buckets idle for more than thirty minutes. |
| RateLimit.BurstExactly | cmd/auth/ratelimit.go:40-65 | Of any number of requests at once exactly what the bucket held plus one per whole minute since its last refill is let through, at most five. |
| RateLimit.AskingLosesNoMinute | cmd/auth/ratelimit.go:40-65 | Requests in between lose nothing of the minutes begun. |
| RateLimit.WindowBound | cmd/auth/ratelimit.go:16-80 | Any window of length T admits at most 5 + ceil(T / 1min) requests of a key, with evictions at any allowed moment. |
| RateLimit.EveryWindowBound | cmd/auth/ratelimit.go:16-80 | The same for every window of every run. |
| RateLimit.BoundIsReached | cmd/auth/ratelimit.go:40-65 | A run that admits exactly that many. |
| Text.ItoaRoundTrip | cmd/dashboard/centralenv_sync.go:598-602 | A decimal version label parses back to its version. |
| Text.SignsParse | cmd/dashboard/docker.go:1437 | A sign before a decimal number only negates it, so an index in a name can be negative. |
| Text.Pad6Order | cmd/dashboard/abmanager.go:211-215 | Six-digit zero padding preserves order below a million. |
| Text.Pad6RoundTrip | cmd/dashboard/abmanager.go:211-215 | A padded index reads back as itself, beyond a million too. |

## Left out

- HTTP handlers, authentication of peers, JSON shapes, audit and log text, UI strings: no state of their own.
- syncPeers, syncOnePeer, reconcileOrigin and reconcilePeer as protocols: their effect on hosts is covered by the events of EnvReplication and SelfRecovery; what a status answer means is ConvergedMeansCurrent.
- promotePeers, promotePeer, central env deferral during a test, what makes a proxy abort B, the z-test hint, status views and the start request's range checks.
- adoptPreflight's local facts (healthchecks, restart policies, compose ownership, acknowledgements, reachability warnings): only its import and key decisions.
- applyContainerFilter, the event watcher, token and passkey stores, the Redis refresh ticker (its effect is the Refresh step of SharedUsers and the refresh in each round of MutateUsers).
- internal/sso, internal/labels, labelstore.go, rollingop.go and cmd/proxy are not part of this model; claims on a service are parameters.
- Unsigned 64-bit widths: versions and counters are unbounded, and parsing a version label has no range check.
- An env is a map; the rendering of env lists and their order are not modelled.
- Mounts, healthchecks and networks of replicas; a replica is its name, image, labels, env and whether it runs and passed its gate.
- PrepareReplaceTemplate: what inspecting the containers gives, and what cloning the template gives a roll that is not pinned, are parameters; healthchecks, mounts and networks of the clone are not modelled.
- AgreementAlways: one origin per service, fixed secrets, no second adoption after a release; a rotated secret would change what the same version resolves to, which the origin answers with a touch.
- LoopComesToRest: a job's wait for peers and for other rollouts is one step with an arbitrary outcome, its timeouts included.
- RollIsSurgeOfOne: removals succeed and nobody else changes the service during the roll; RollLocal has other actors before and between its listings.
- RollLocal: the waiting for other rollouts is cut off by the job's time limit, here the end of the list of rounds.
- DeletedOnlyWhenReleased: peers that answer 404 are not covered, and nothing is said about what happens to a host after the delete.
- RunRelease: what the peers answer in their turns and what others do here meanwhile are parameters; the peers' own state is in the release system of the same module.
- HandleNotify: a handler runs as one step; a loop ending between its look at the running flag and its request is not modelled, nor are the shown job records.
- AdoptLosesNothing: values that read as secret references are excluded, as the preflight blocks them.
- ConfigPickNeverMovesBack: labels of different generations differ; a removal that fails after a failed gate is the crash step.
- BHost.Relabel: indices stay below a million, beyond which NamesOutgrowTheirWidth applies.
- AcceptedDecisionStands: the store is not lost (after that the record is rebuilt from B's labels, and AlwaysSound still holds); Docker listings succeed while finalizing; test ids do not repeat.
- IdleDrainIsSound: reports are truthful about the pins a proxy remembers, and every proxy is among the hosts asked.
- MutateUsers: what other dashboards write around its attempts is a parameter; how their calls interleave is SharedUsers.
- SyncFromRedisOrImport: its recursion is cut off by the caller's time limit, here the end of the list of rounds.
- MergedPercentileBetween: over the reals, with equal increasing bounds on both hosts.
