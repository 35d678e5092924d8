# Verification of the WOPI service

A Dafny model of the concurrent and algorithmic core of the Alkemio WOPI service, the
host that lets Collabora edit documents kept in file-service, with proofs of what it
guarantees on every run.

`dafny verify dfyconfig.toml` checks the whole project.

## How the model is built

Each concurrent part of the service is a state machine. An *event* is one atomic step of
one party: a database statement, a call to another system, the sampling of a clock, a
critical section, a semaphore operation, the passing of time, a cleanup sweep, a loss
behind the service's back. `Step` is total, an event that cannot happen in a state leaves
it alone, and a run is any sequence of events, so a lemma about all sequences is a lemma
about all interleavings of any number of requests. Calls to other systems may fail in any
step; a failing call may or may not have had its effect before it returned.

Beside each machine stands the service itself as a class, with the service's methods,
branches and in-place updates. Between any two of its steps a method hands over to
`Others`, which runs any number of events of everybody else. Each class keeps the ghost
list of all events so far, and its invariant says that its fields are exactly the state
the machine reaches by them: every execution of the methods is a run of the machine, so
everything proved of all runs holds of the methods.

| part | machine and theorems | methods |
|---|---|---|
| WOPI locks | `LockProtocol`, `LockInvariant`, `LockAnswers`, `LockTheorems`, `LockRefinement`, `LockTakeover`, `LockWitnesses` | `LockTable` (the SQL and the repository), `WopiService` |
| preview cache | `PreviewProtocol`, `PreviewInvariant`, `PreviewAnswers`, `PreviewTheorems`, `PreviewVersions`, `PreviewFlights`, `PreviewAdmission`, `PreviewProgress`, `PreviewWitnesses` | `PreviewServiceModel` |
| contribution window | `Contribution` | `ContributionWindowModel`, `SortedNames` |
| access tokens, cleanup | `Tokens`, `Permissions`, `EndToEnd` | `TokenServiceModel` |
| discovery cache | `Discovery` | `DiscoveryServiceModel` |
| algorithms | `Proof`, `Placeholders`, `EditorURL`, `Permissions` | in the same modules |

## Assumptions

- One process, one monotone clock that the service and the database share, serializable
  single statements; `now()` is the instant of the statement.
- A source document's update date grows with every save, so it also names its version.
- A call that reports failure took effect before it returned or never.
- File-service never gives a new file an ID it has used, and random token values never repeat.

## Where the code says something else than its documentation

- `Lock` is documented to answer with a conflict while another ID is active
  (internal/domain/service/wopi_service.go:208-210). Two calls that both read the file as
  unlocked both succeed, and the second silently replaces the first
  (`LockTheorems.RacingLocksBothGranted`); `LockTheorems.HolderGuarantee` says exactly when.
- A lock acquired over an expired row that has not been swept keeps that row's
  `created_at`, so it may be taken over at once (`LockRefinement.SweepShows`). This is why
  the sweep is visible exactly when takeovers are enabled
  (`LockRefinement.SweepInvisibleIffNoTakeover`).
- A refresh that reaches the database a whole lock duration after it sampled its clock,
  while another refresh has kept the lock alive, succeeds and ends its own lock
  (`LockWitnesses.LateRefreshEndsItsOwnLock`).
- The clean-up of an uncommitted preview file is justified by "no mapping row ever
  referenced previewID" (internal/domain/service/preview_service.go:277-281). That holds
  exactly when no mapping update naming it was reported as failed although it happened
  (`PreviewTheorems.DiscardsHitUnmappedFiles`; `PreviewWitnesses.CleanUpHitsAMappedFile` is a run
  on which the mapped file is deleted).
- A save against another session's lock is promised to be refused
  (docs/wopi-locking.md:83, and success criterion SC-003). The lock is read before the
  content is written, so a save lands under a lock installed in between
  (`LockWitnesses.SaveLandsUnderAForeignLock`), and under no other
  (`LockTheorems.ForeignLockCameAfterTheRead`).

As documented (internal/domain/service/contribution_window.go:156-160), a modification marked
in a window in which nobody is active on the document is dropped: no actor, no message
(`Contribution.FlushReportsItsWindow`).

## Model

| member | source | states |
|---|---|---|
| LockTable.LockRepository.FindByFileID | internal/adapter/outbound/postgres/lock_repository.go:42-58 | a row is found exactly if it expires after now; a broken connection is an error, no row is none |
| LockTable.LockRepository.Create | internal/adapter/outbound/postgres/generated/locks.sql.go:139-144 | replaces whatever is there, unconditionally, but keeps the age of a row that was there, expired or not |
| LockTable.LockRepository.RefreshExpiry | internal/adapter/outbound/postgres/lock_repository.go:79-96 | extends the row only if it carries the ID and has not expired, and reports a stale lock otherwise |
| LockTable.LockRepository.UpdateLockID | internal/adapter/outbound/postgres/lock_repository.go:61-76 | swaps ID and expiry only if the row carries the old ID and has not expired, and reports a stale lock otherwise |
| LockTable.LockRepository.DeleteByFileID | internal/adapter/outbound/postgres/lock_repository.go:99-112 | deletes the row if it carries the ID, expired or not, and reports a stale lock otherwise |
| LockTable.LockRepository.Takeover | internal/adapter/outbound/postgres/lock_repository.go:124-140 | replaces ID, age and expiry if the row carries the old ID, expired or not, and reports a stale lock otherwise |
| LockTable.LockRepository.DeleteExpired | internal/adapter/outbound/postgres/lock_repository.go:115-118 | removes exactly the rows that expired strictly before now, and counts them |
| WopiService.WOPIService.Lock | internal/domain/service/wopi_service.go:220-285 | every execution among any other calls is a run of the lock machine, in which this call begins and ends with the outcome returned |
| WopiService.WOPIService.Unlock | internal/domain/service/wopi_service.go:288-302 | the same for unlock |
| WopiService.WOPIService.RefreshLock | internal/domain/service/wopi_service.go:305-320 | the same for refresh |
| WopiService.WOPIService.HasActiveLock | internal/domain/service/wopi_service.go:328-334 | the same for the query |
| WopiService.WOPIService.UnlockAndRelock | internal/domain/service/wopi_service.go:337-359 | the same for relock |
| WopiService.WOPIService.PutFile | internal/domain/service/wopi_service.go:170-200 | the same for a save, to the file of its token, with the permissions of its token |
| LockInvariant.Reachable | internal/domain/service/wopi_service.go:220-359 | in every reachable state no stored ID is empty, no expiry lies more than 30 minutes ahead, and every call holds what the table showed at an instant while it was in flight |
| LockAnswers.ArrivalAnswers | internal/domain/service/wopi_service.go:171-173 | on every run, a call is answered at once exactly if a Lock or relock has an empty ID or a save a token without write |
| LockAnswers.ReadAnswers | internal/domain/service/wopi_service.go:225-228 | on every run, what the read of the lock does with each operation: which go on, and which are answered, quoting the lock in force at that instant, or failed |
| LockAnswers.ClockAnswers | internal/domain/service/wopi_service.go:230-274 | on every run, the clock ends a call exactly if it is a Lock that read another lock which is not too old, and quotes that lock |
| LockAnswers.CommitAnswers | internal/domain/service/wopi_service.go:233-301 | on every run, when each statement finds its row, what it makes of the table, thirty minutes from the clock sample included, and what the call is answered: granted, an empty conflict, failed, or, after a lost takeover, another look |
| LockAnswers.RefetchAnswers | internal/domain/service/wopi_service.go:252-268 | on every run, the second look ends the call with the lock then in force, or with an empty conflict |
| LockAnswers.LostRaceAnswers | internal/domain/service/wopi_service.go:29-34 | on every run, an unlock, refresh, relock or renewing Lock that has lost its row ends with an empty conflict, and a Lock that lost a takeover, at its next step, with the lock in force then |
| LockAnswers.ErrorsEndCalls | internal/domain/service/wopi_service.go:225-228 | on every run, an error of the database or of file-service ends a call as failed |
| LockAnswers.StoreAnswers | internal/domain/service/wopi_service.go:186-189 | on every run, the write of a save puts its content in place unless it fails without effect, and is granted exactly without an error |
| LockAnswers.SavesDoWhatTheyAnswer | internal/domain/service/wopi_service.go:170-200 | on every run, a granted save has written its file at one of its steps and nothing at the others, a failed one its file or nothing, and one answered anything else nothing at all |
| LockAnswers.SweepsAndTicks | internal/adapter/outbound/postgres/generated/locks.sql.go:14-16 | on every run, a sweep removes exactly the rows that expired before now, and time changes no row |
| LockTheorems.HolderGuarantee | internal/domain/service/wopi_service.go:220-359 | an active ID stops being in force if and only if it expires, or an unlock or relock naming it takes effect, or a takeover that read it past the maximum lifetime, or a creation whose read came before the ID was installed, or its own refresh a whole lock duration late |
| LockTheorems.GrantsAreTimely | internal/adapter/outbound/postgres/lock_repository.go:61-140 | a successful refresh or relock, or Lock that refreshes its own ID, commits while the row is active under the ID it names, a successful unlock or takeover while the row still carries the ID it read; and what each leaves behind |
| LockTheorems.AtMostOneConsumes | internal/domain/service/wopi_service.go:242-271 | of all takeovers, relocks to another ID and unlocks of one ID, at most one succeeds unless a statement puts the ID on the row again in between |
| LockTheorems.ConflictsQuoteRealLocks | internal/domain/service/wopi_service.go:252-273 | a nonempty ID quoted in a conflict was the lock in force at an instant while the call was in flight, also after a lost takeover |
| LockTheorems.EmptyConflicts | internal/domain/service/wopi_service.go:29-34 | an empty conflict means that the last read saw no active lock or that the conditional write has just lost a race |
| LockTheorems.SilentHolderLosesTheFile | internal/domain/service/wopi_service.go:276-284 | no expiry lies more than 30 minutes ahead; after 30 minutes in which no statement takes effect on a file it is unlocked, and the next Lock of any nonempty ID gets it for 30 minutes |
| LockTheorems.RefreshingKeepsTheLock | internal/domain/service/wopi_service.go:304-320 | a holder whom nobody unlocks, overwrites, relocks away or takes over keeps the lock through any number of refreshes exactly as long as every instant comes less than 30 minutes after the clock sample of the last refresh committed |
| LockTheorems.WritesAreAuthorized | internal/domain/service/wopi_service.go:170-189 | content changes only by a save whose token grants write and whose own read saw the file unlocked or locked under the nonempty ID it sent |
| LockTheorems.ForeignLockCameAfterTheRead | internal/domain/service/wopi_service.go:175-186 | a save that lands while an ID other than the one it sent is in force lands after that ID was installed, at or after the save's own read |
| LockTheorems.RacingLocksBothGranted | internal/domain/service/wopi_service.go:276-284 | a run in which two Locks with different IDs both succeed, the second replacing an active young lock |
| LockWitnesses.LateRefreshEndsItsOwnLock | internal/domain/service/wopi_service.go:318-319 | a run in which a refresh commits 35 minutes after its clock sample, while another has kept the lock alive: it succeeds, and the file is unlocked |
| LockWitnesses.SaveLandsUnderAForeignLock | internal/domain/service/wopi_service.go:175-186 | a run in which a save without a lock ID lands, and succeeds, while another session holds the lock |
| LockRefinement.SoloRefines | internal/domain/service/wopi_service.go:220-359 | without takeovers, a call with nothing in between acts on and answers like the operation on a map of unexpired leases, a granted save writing its file |
| LockRefinement.TableRefinesLeases | internal/domain/service/wopi_service.go:220-359 | without takeovers, all answers of any one-at-a-time script with waits and sweeps, and the leases and contents it leads to, are those of the map of leases |
| LockRefinement.SweepShows | internal/adapter/outbound/postgres/generated/locks.sql.go:139-144 | with takeovers, a script whose last answer depends on a sweep, through the inherited age |
| LockRefinement.SweepInvisibleIffNoTakeover | internal/domain/service/cleanup_service.go:52-66 | the sweep changes no answer of any one-at-a-time script if and only if takeovers are disabled |
| LockTakeover.SoloRefines | internal/domain/service/wopi_service.go:220-359 | with any maximum lifetime, a call with nothing in between acts on and answers like the operation on a map of tenures, with their ages, beside the remnants of expired rows |
| LockTakeover.TableRefinesTenures | internal/domain/service/wopi_service.go:220-359 | with any maximum lifetime, all answers, ages included, of any one-at-a-time script with waits and sweeps, and the state and contents it leads to, are those of the tenures; of an expired row only its age matters, to the next lock of the file, and only until the sweep clears it away |
| PreviewServiceModel.PreviewService.Resolve | internal/domain/service/preview_service.go:70-120 | every execution among any other requests, jobs, saves and losses is a run of the preview machine, in which this request ends with the response returned |
| PreviewServiceModel.PreviewService.CurrentMapping | internal/domain/service/preview_service.go:124-133 | the entry if it has the observed date; its absence sends the request to the render flight |
| PreviewServiceModel.PreviewService.ResolveMiss | internal/domain/service/preview_service.go:138-155 | joins or starts the one flight of the source, and ends with its verdict, the stale refusal or the request's own end, which may win even after the verdict is there |
| PreviewServiceModel.PreviewService.WriteTarget | internal/domain/service/preview_service.go:162-197 | reuse, replace in place, create, or fail: each with the state of the job it leads to |
| PreviewServiceModel.PreviewService.RenderAndStore | internal/domain/service/preview_service.go:206-263 | takes an admitted job to the verdict it publishes, through the releases, on every path |
| PreviewServiceModel.PreviewService.CommitRefresh | internal/domain/service/preview_service.go:269-275 | the mapping update is the only step the job takes, so nothing is discarded; if it succeeds the mapping names the same file with the rendered date, if not the mapping is that or what it was |
| PreviewServiceModel.PreviewService.CommitMapping | internal/domain/service/preview_service.go:282-292 | the mapping update, and if it succeeds nothing else, the mapping naming the new file with the rendered date; if it is reported as failed exactly one more step, which discards the new file |
| PreviewInvariant.Reachable | internal/domain/service/preview_service.go:100-292 | the invariant of the cache, its jobs and its callers, in every reachable state |
| PreviewAnswers.ResponsesAreGiven | internal/domain/service/preview_service.go:70-155 | the table of responses: a request has a response if and only if one of its own steps gave it, in one of the ways the source has, each told by what its calls saw |
| PreviewAnswers.StepsLead | internal/domain/service/preview_service.go:70-120 | where a step without a response takes a request, with exactly what it has just seen |
| PreviewAnswers.FlightErrorsReachTheirWaiters | internal/domain/service/preview_service.go:142-154 | a request whose flight fails is refused with the very error of the flight, unless it gives up itself |
| PreviewAnswers.AdmissionAnswers | internal/domain/service/preview_service.go:206-218 | a job is refused at once exactly if two plus the waiting capacity are admitted and unfinished, and runs as soon as fewer than two others do, unless its time is up before |
| PreviewAnswers.LookupAnswers | internal/domain/service/preview_service.go:220-246 | the error that each failing lookup, read or rendering ends a job with, and where what it finds takes it; the verdict is the same through both releases to its publication |
| PreviewAnswers.WriteAnswers | internal/domain/service/preview_service.go:248-292 | what each write, update and deletion leaves in the tables, whatever is reported, and where the report takes the job |
| PreviewTheorems.BodiesAreFresh | internal/domain/service/preview_service.go:79-119 | a body shows the requested source, is at least as new as its ETag, which is at least as new as the date the request observed, and goes to authorized callers only; not modified only for the very date observed |
| PreviewTheorems.MappingsAreSound | internal/domain/service/preview_service.go:162-197 | a mapped preview with content was rendered from its source no older than the mapped date; mapped IDs are pairwise distinct and never source IDs |
| PreviewVersions.MappedVersionsAreReal | internal/domain/service/preview_service.go:220-262 | no picture is from the future: a mapped preview shows a version between the mapped date and the source's current one, so a current mapping shows exactly the current version |
| PreviewTheorems.MappedDatesGrow | internal/domain/service/preview_service.go:265-292 | a mapping never disappears, and its date never goes backwards |
| PreviewTheorems.MappedIdIsStable | internal/domain/service/preview_service.go:186-196 | the mapped ID changes only when that file's row is gone: lost outside while it existed, or discarded after an update wrongly reported as failed |
| PreviewTheorems.EveryRowIsAccountedFor | internal/domain/service/preview_service.go:248-292 | every existing preview row is mapped, held by a job between create and commit, or left by a creation that happened and was reported as failed or by a deletion that failed |
| PreviewTheorems.DiscardsHitUnmappedFiles | internal/domain/service/preview_service.go:277-289 | the deleted file was ever mapped if and only if an update naming it was reported as failed although it happened |
| PreviewWitnesses.CleanUpHitsAMappedFile | internal/domain/service/preview_service.go:277-289 | a run that ends with the deletion of the very file that a mapping names |
| PreviewTheorems.HistoryMeans | internal/domain/service/preview_service.go:282-292 | a file is recorded as ever mapped, doubted or left behind if and only if some step of the run mapped it, mapped it and reported failure, or left it behind |
| PreviewFlights.RendersGoToOnePlace | internal/domain/service/preview_service.go:236-262 | a job renders at most once, its picture goes to exactly one of write and create if it succeeds and to at most one otherwise, and a file is created only with no mapping or a missing row |
| PreviewFlights.FailureLeavesMapping | internal/domain/service/preview_service.go:206-292 | a failing job, on every exit, leaves the mapping other than it was at take-off if and only if an update reported to it as failed took effect and wrote something else |
| PreviewFlights.StaleIffSavedInBetween | internal/domain/service/preview_service.go:138-155 | a request of a successful flight that goes on to read the verdict is refused as stale if and only if a save fell between the job's lookup and the request's own later lookup; instead of reading it, it may still end as cancelled |
| PreviewFlights.LeadersAreNeverStale | internal/domain/service/preview_service.go:135-155 | a request that started a flight is never refused as stale |
| PreviewFlights.DatesGrowBySaves | internal/domain/service/preview_service.go:95-100 | between two instants the date of a source grows exactly if it was saved |
| PreviewAdmission.AdmissionIsConserved | internal/domain/service/preview_service.go:206-218 | slots held equal the admitted unfinished jobs and never exceed 2 plus the capacity, permits equal the active ones and never exceed 2, every running render holds one, and with no job left both are zero |
| PreviewAdmission.StepConserves | internal/domain/service/preview_service.go:206-218 | every step of every party keeps that balance |
| PreviewProgress.RequestIsServed | internal/domain/service/preview_service.go:70-120 | from every reachable state in which the source has no flight and the queue has room, a request whose calls all succeed, with nothing saved or lost meanwhile, gets the current picture under the current date within twenty steps, and leaves it cached |
| PreviewProgress.CachedIsServedWithoutAFlight | internal/domain/service/preview_service.go:95-109 | while the current picture is cached a request for it is served in four steps, whether the queue has room or not, without a flight, touching neither tables nor semaphores |
| PreviewProgress.TheNextRequestNeedsNoFlight | internal/domain/service/preview_service.go:70-120 | there is such a run, and after it the next request is served without a flight |
| SortedNames.ToActorIDs | internal/domain/service/contribution_window.go:223-230 | lists exactly the members of the set in alphabetical order, in whatever order they were taken |
| SortedNames.BelowIsLexicographic | internal/domain/service/contribution_window.go:228 | that order is the lexicographic one: the earlier name is a proper beginning of the later or has the smaller character where they first differ |
| SortedNames.ListingIsUnique | internal/domain/service/contribution_window.go:221-230 | a set has only one such list, so the event does not depend on the order of arrival |
| ContributionWindowModel.ContributionWindow.AddActor | internal/domain/service/contribution_window.go:121-133 | one step of the run, ignored for an empty file or actor |
| ContributionWindowModel.ContributionWindow.MarkModified | internal/domain/service/contribution_window.go:109-116 | one step of the run, ignored for an empty file |
| ContributionWindowModel.ContributionWindow.PublishDoc | internal/domain/service/contribution_window.go:168-206 | one turn of the loop is one publication of the run, or none for a document without actors |
| ContributionWindowModel.ContributionWindow.Flush | internal/domain/service/contribution_window.go:161-210 | takes the window in one step, and has dealt with every document of it at the end, while others fill the next |
| Contribution.CurrentWindow | internal/domain/service/contribution_window.go:98-133 | the open window is exactly the record of the events since the last swap |
| Contribution.FlushReportsItsWindow | internal/domain/service/contribution_window.go:161-210 | a finished flush has called the publisher exactly once per document with an accepted actor since the previous swap, on the contribution topic exactly if it was marked since, with the sorted lists of exactly those actors, and not at all for other documents |
| Contribution.EveryEventLandsOnce | internal/domain/service/contribution_window.go:162-165 | every activity falls into exactly one flush, that of the first swap after it, and into none without one |
| Contribution.CountersAddUp | internal/domain/service/contribution_window.go:185-198 | emitted plus failed equals attempts, and emitted is the number accepted |
| Permissions.HasPermission | internal/domain/model/token.go:28-40 | for a nonempty permission, membership in the comma-separated list; for the empty one, an empty item that is not at the very end |
| Permissions.SplitIsExact | internal/domain/model/token.go:28-40 | the list is the string split at every comma: joined again it is the string, and no item holds a comma |
| Permissions.MintedStrings | internal/domain/service/token_service.go:97-118 | what the two permission strings of the service grant |
| Proof.AppendBigEndianUint32 | internal/adapter/inbound/http/middleware_proof.go:183-187 | appends the four bytes, most significant first |
| Proof.AppendBigEndianUint64 | internal/adapter/inbound/http/middleware_proof.go:189-193 | appends the eight bytes, most significant first |
| Proof.BuildProofPayload | internal/adapter/inbound/http/middleware_proof.go:111-126 | the three length-prefixed fields in order, 20 bytes longer than token and URL together |
| Proof.PayloadLayout | internal/adapter/inbound/http/middleware_proof.go:115-123 | where the token, the URL, their lengths modulo 2^32, the length 8 and the timestamp in two's complement are in the payload |
| Proof.DecodePayload | internal/adapter/inbound/http/middleware_proof.go:111-126 | a decoder recovers token, URL and timestamp if and only if both lengths fit 32 bits |
| Proof.PayloadOfDecoded | internal/adapter/inbound/http/middleware_proof.go:111-126 | whatever the decoder accepts is the payload of what it returns |
| Proof.PayloadIsInjective | internal/adapter/inbound/http/middleware_proof.go:111-126 | different requests have different payloads |
| Proof.DecodeBigEndian | internal/adapter/inbound/http/middleware_proof.go:183-193 | big-endian bytes decode to the number |
| Proof.EncodeBigEndian | internal/adapter/inbound/http/middleware_proof.go:183-193 | and the number encodes to the bytes |
| Proof.BigEndianByte | internal/adapter/inbound/http/middleware_proof.go:183-193 | byte k of n is the number divided by 256 to the power n - 1 - k, modulo 256 |
| Proof.IsTimestampFresh | internal/adapter/inbound/http/middleware_proof.go:158-170 | for ticks within 92233720368547758 of the Unix epoch, exactly the test on the true skew of 20 minutes; for all ticks, the test on the wrapped instant, without the negation overflowing |
| Proof.UnixNanosIs | internal/adapter/inbound/http/middleware_proof.go:161-164 | over all ticks the instant is the true one but for a multiple of 2^64, and fits 64 bits |
| Proof.UnixNanosPeriod | internal/adapter/inbound/http/middleware_proof.go:163 | over all 64-bit ticks the instant repeats every 2^62 |
| Proof.UnixNanosNoShorterPeriod | internal/adapter/inbound/http/middleware_proof.go:163 | and no shorter shift maps any tick count to the same instant |
| Placeholders.StripWOPIPlaceholders | internal/domain/service/token_service.go:229-245 | the loop computes the recursive specification |
| Placeholders.StripKeepsTheOutside | internal/domain/service/token_service.go:226-245 | it keeps, in order, exactly the characters that lie in no placeholder: those with no open '<' before them that is closed at or after them |
| Placeholders.StripIsANormalForm | internal/domain/service/token_service.go:226-245 | the result has no '<' with a later '>', stripping changes a string exactly if it has one, and stripping twice is stripping once |
| Placeholders.StripLeavesNone | internal/domain/service/token_service.go:229-245 | the same from every position of the loop, with nothing in the result that was not in the rest of the string |
| Discovery.CacheLasts | internal/domain/service/discovery_service.go:183-203 | once filled the cache never empties, and holds only data that was fetched |
| Discovery.CachedSince | internal/domain/service/discovery_service.go:197-200 | on every run, cached data with a date was stored at that time, and not invalidated since |
| Discovery.ProbeLogAlternates | internal/domain/service/discovery_service.go:93-117 | over any run the log has one record per adjacent pair of differing probes, lost and regained alternate, and probes leave the cache alone |
| Discovery.FindAction | internal/domain/service/discovery_service.go:140-169 | the first action of the preferred name, else the last of the other, else the last view_comment, among those of the extension |
| Discovery.ChoiceIsUnique | internal/domain/service/discovery_service.go:122-170 | that description fits exactly one choice |
| Discovery.ChoiceByName | internal/domain/service/discovery_service.go:133-169 | who may write gets the first "edit", else the last "view"; who may only read the first "view", else the last "edit"; and both the last "view_comment" if there is neither |
| DiscoveryServiceModel.DiscoveryService.GetDiscovery | internal/domain/service/discovery_service.go:55-65 | never fails once the cache was filled, never returns data that was not fetched, fails only if the cache was empty at some instant of the call, does not ask while the data is younger than 12 hours, and otherwise returns and caches what Collabora replies; so it never returns anything else that was stored twelve hours ago or invalidated since, if Collabora replies |
| DiscoveryServiceModel.DiscoveryService.InvalidateAndRefresh | internal/domain/service/discovery_service.go:69-76 | the same, but it always asks |
| DiscoveryServiceModel.DiscoveryService.Refresh | internal/domain/service/discovery_service.go:183-203 | returns and caches the reply with its date; without one falls back on the stale data, and fails only if there was none |
| DiscoveryServiceModel.DiscoveryService.Probe | internal/domain/service/discovery_service.go:93-117 | its outcome is the last step of the run, and the last success is now if it succeeded |
| DiscoveryServiceModel.DiscoveryService.RecordProbe | internal/domain/service/discovery_service.go:97-116 | logs exactly if the outcome differs from the probe before, and touches nothing of the cache |
| DiscoveryServiceModel.DiscoveryService.FindActionByExtension | internal/domain/service/discovery_service.go:125-170 | the choice among the cached actions, and which error if there is none |
| Tokens.SweepsAreInvisible | internal/domain/service/token_service.go:249-261 | two runs that differ only in their sweeps answer every validation alike |
| Tokens.ReusedTokenShowsTheSweep | internal/adapter/outbound/postgres/generated/tokens.sql.go:68-71 | without fresh token values this fails: a run in which a sweep decides whether a value can be issued again |
| Tokens.ValidExactlyForItsLifetime | internal/domain/service/token_service.go:249-261 | a token validates, to the very row its grant asked for, if and only if it has been stored and at most eight hours have passed since it was issued |
| Tokens.RowsSurvive | internal/adapter/outbound/postgres/generated/tokens.sql.go:14-16 | a row lasts, unchanged, at least until it has expired |
| Tokens.SweepsTakeTheExpired | internal/adapter/outbound/postgres/generated/tokens.sql.go:14-16 | a sweep removes exactly the rows that expired before now |
| Tokens.ValidTokensGrantWhatWasAllowed | internal/domain/service/token_service.go:96-148 | a token that validates was issued by a request whose document, actor and times its row holds, field by field; it grants read, and write if and only if its document was no PDF and updating it was allowed |
| TokenServiceModel.TokenRepository.Create | internal/adapter/outbound/postgres/token_repository.go:24-36 | stores the row unless the value is in the table, which is an error |
| TokenServiceModel.TokenRepository.FindByToken | internal/adapter/outbound/postgres/token_repository.go:39-58 | finds the row whether or not it has expired |
| TokenServiceModel.TokenRepository.DeleteExpired | internal/adapter/outbound/postgres/token_repository.go:71-74 | removes exactly the rows that expired strictly before now, and counts them |
| TokenServiceModel.TokenService.ValidateToken | internal/domain/service/token_service.go:249-261 | although it reads the table and the clock at different instants, its answer is the right one at some instant of the call |
| TokenServiceModel.TokenService.ResolveEditorURL | internal/domain/service/token_service.go:164-204 | the editor URL from the one action that has to be chosen for the document's extension, without its placeholders, or the one reason why there is none; after a fetch the cache is never found empty |
| TokenServiceModel.TokenService.BuildEditorURL | internal/domain/service/token_service.go:192-224 | the URL is the base URL, the stripped path, a question mark or an ampersand after the query that the path has, and the parameters in their order |
| EditorURL.URLDeterminesItsParameters | internal/domain/service/token_service.go:206-224 | the WOPI source, the token, the expiry and the language can be read back: URLs for one editor page that are equal have equal parameters |
| EditorURL.URLDeterminesTheDocument | internal/domain/service/token_service.go:128 | editor URLs for one page that were made for different documents differ |
| EditorURL.URLHasOneQuery | internal/domain/service/token_service.go:206-217 | the URL begins with the base URL and the path, goes on with the service's own query, and has exactly one question mark if the base URL has none and the path at most one |
| TokenServiceModel.TokenService.IssueToken | internal/domain/service/token_service.go:78-160 | which answers of the other systems lead to which refusal, the unresolved editor URL with its one reason; a refused request has asked for no row, except that one refused because storing failed has asked for exactly one, which may be there all the same; a granted one has stored exactly one row, issued during the call, with exactly the permissions found, and returns its token, its expiry eight hours on in milliseconds, the callback URL with the document as its WOPI source, and an editor URL made of these |
| TokenServiceModel.CleanupService.Run | internal/domain/service/cleanup_service.go:52-66 | sweeps both tables, the second whatever becomes of the first |
| EndToEnd.SavesWereAllowed | internal/domain/service/wopi_service.go:170-189 | a save made with a token that validated, if it changes a document, changes only the document that this token was issued for, which is no PDF and which the actor was allowed to update; and its own read saw the file unlocked or locked under its ID |
| EndToEnd.ForbiddenExactlyForReadOnlyTokens | internal/domain/service/wopi_service.go:170-173 | a save is refused for want of permission if and only if the issuance that stored its row was not for writing |

## Left out

- HTTP routing and handlers, JSON and XML, the multipart and pipe streaming to the renderer, NATS, RabbitMQ, the circuit breaker and the retries: other systems are calls that succeed or fail.
- RSA verification, SHA-256, base64 and key decoding: libraries; the model ends at the signed payload and the freshness of the timestamp.
- The decisions of the authorization service: an arbitrary answer to every question.
- The bytes of documents and pictures: a picture is the source and the version it shows, and `contents` is the save that last wrote a file.
- The text of an ETag: the model uses the update date, of which the text is an injective rendering.
- `url.Parse`, `url.QueryEscape` and the decimal rendering of numbers: arbitrary functions; that the last two are injective and emit no ampersand is a hypothesis of `EditorURL.URLDeterminesItsParameters` alone.
- Renaming, CheckFileInfo, configuration, health responses and log wording: single-branch facts. Only the reachability log is modelled.
- The tickers of the cleanup and of the contribution window: sweeps and flushes happen at any time.
- Several replicas, and skew between the clocks of service and database: single-flight and all clocks are those of one process.
- Fairness of the semaphores, and progress against others: a job waiting for a permit gets one when one is free, or times out, at any time; that a request gets its picture is proved of runs in which nobody else moves.
- The precision of stored times: the clock counts microseconds, as TIMESTAMPTZ does, so nothing is rounded on the way to the database and back. The saturation of a duration of more than 292 years is modelled for the proof timestamp only.
- Canonical spelling: the preview machine takes the canonical source ID, not the spelling of the request.
- PreviewServiceModel.PreviewService.Resolve: says that the response is the one of the run; that it is fresh and authorized is the content of BodiesAreFresh, and so on for the other theorems. The tables, flights and semaphores shared by the goroutines are one field holding a value, since single-flight and file-service are not objects of this service.
- PreviewServiceModel.PreviewService.ReadSource: reads the source's content as of one instant, not as a stream during which the source may be saved.
- PreviewServiceModel.PreviewService.RenderAndStore: one render timeout bounds only the wait for a permit; that it may also end a later call is among the failures every call may have.
- ContributionWindowModel.ContributionWindow.Flush: a document's window is a value in the map of windows, not an object that the map points to; nothing else refers to it.
- Tokens.SweepsAreInvisible: assumes fresh token values; ReusedTokenShowsTheSweep shows that it needs to.
- TokenServiceModel.TokenService.IssueToken: the answers of file-service and of the authorization service are parameters, and the row's own UUID is not modelled. The discovery cache and the token table advance on separate clocks.
- TokenServiceModel.TokenRepository.DeleteExpired: `DeleteByID`, which nothing calls, is not part of this model.
