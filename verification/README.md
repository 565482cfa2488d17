# CyberVault: verified models of its gates, limiters and text readers

This project models the parts of CyberVault whose behaviour cannot be read off one function: the
step-up gate of the extension's service worker, the Plus authorization protocol, managed release in
Core, the login limiter, the circuit breaker with its retry loop, the edit-distance similarity, and the
two hand-written text readers. Each part is a specification on values, a program over mutable fields or
arrays where the source has one, and theorems about every input or every run.

| files | what they model |
|---|---|
| `StepUpWorker`, `StepUpGate` | the step-up gate: the steps of its handlers, and their interleavings |
| `StepUpLedgers` | which refusals and approvals stand in memory and on record, and what makes them leave or return |
| `StepUpPromises`, `StepUpCeremonies`, `StepUpSessions`, `StepUpRuns` | what its runs keep: releases, approvals, the session, the pending list, and runs that show the limits |
| `GateWriteChain`, `GateWriteRuns` | the chain of writes, and the runs of the gate as runs of the chain |
| `StepUpFastPath`, `BindingKey` | the early refusal, the key of a binding |
| `RiskEngine`, `Entitlement`, `Challenges`, `CapabilityGate`, `PlusProtocol` | Plus: the risk score, the challenge table, the capability gate, runs of all three |
| `ManagedRelease`, `ReplayStore` | the release pipeline in Core around the one-time token store |
| `LoginLimiter`, `LoginRoute` | failed-login lockouts, and the login route with overlapping logins |
| `CircuitBreaker`, `BreakerOverlap`, `Retry`, `Quotients` | the breaker, for calls one at a time and overlapping, the retry loop, and the two combined |
| `Levenshtein` | the row-buffer program and the edit distance it computes |
| `Yaml`, `YamlText`, `Hostname`, `Strings` | the YAML reader and the hostname sanitiser |
| `Outcomes` | option and result types |

The handlers of the step-up gate are cut where the code waits: a release waits for Plus and Core, then for
the read of the persisted gate if memory does not know the binding, then goes on with its verdict, and
answers when its write has had its turn. A write waits for its turn, reads the persisted gate, waits, and
stores the copy it read with its change in it. Locks, lapses, approvals and the pending list are cut likewise.
Any other step, or an eviction, may come between. The answers of Plus and Core, the clock, random ids, and
whether each write of the gate and each read of it succeeds are parameters of the steps, so the theorems
hold for all of them; what is still taken as one step is listed under "Left out".

## Where the code does not do what it or its documentation says

Each of these is proved for all inputs or runs, with the exact condition where the behaviour depends on one.

- **A refused binding can go out with nothing approved** (`auditor.ts` 1046-1066 and 1260-1318). Exactly when
  memory does not know the binding and the read of the record fails or finds no refusal there:
  `UnapprovedReleaseIff`. A refusal that was answered before is not found when it was recorded after the
  check, which the waits allow (`RefusalOvertaken`, `PassedOverDebtIff`, `PassedOverRecordIff`); when its own
  write failed and its worker was stopped (`UnwrittenRefusalIsLost`); or when it has left the record, by a
  release, by a removal, or by the write of any binding whose read had failed (`LeavesRecordIff`,
  `FailedReadLosesRefusal`).
- **One approval can pay for more than one release** (`step-up-flow.ts` 228 says one): exactly when the later
  check looked in memory before the earlier release had spent, or looked on record while the approval was still
  there (`ApprovalReusedIff`). It is as long as the spending is not written, because that write waits or has
  failed (`ReusedMeansUnwritten`, `StillOnRecordIff`): two releases checked together
  (`TwoReleasesOnOneApproval`), or two one after the other (`UnwrittenSpendingIsReused`).
- **What a lock or a lapse has cleared can come back** (1248-1272): the removal of the record does not queue
  behind the chain of writes, so a write that had read the record before stores it again. A release then goes
  out on an approval of the session before: `ReturnsToRecordIff`, `LapseInsideIsUndone`,
  `ClearedApprovalComesBack`, `RemovalHoldsIff`. A failed read costs everything stored but the one change:
  `UnreadableReadIsHarmlessIff`.
- **Paid, yet refused** (1300-1308 expects memory to hold all it ever wrote). A worker started after an
  eviction, challenged again by Plus, refuses a binding whose approval is on record, while the pending list is
  empty: `PaidButWithheldIff`, `EvictedThenChallengedAgain`, `ApprovedRun`.
- **An eviction can change the pending list** (1320-1329), exactly when a refusal or an approval in memory has
  not been written: `EvictionKeepsPendingIff`, `EvictionKeepsPendingAtRest`.
- **The early refusal is not only an optimisation** (1015-1032). In an unlocked session it is; in a lapsed
  one the full path would notice the lapse and drop the debt, the early refusal keeps it across the next
  unlock: `FullPathRefusesToo`, `FastPathOnlySavesTime`, `LapsedRefusalMatters`.
- **A lock does not end an approval that is waiting** for Core, for Plus or for its write (311-316 says no
  challenge or completion survives it), and a lapse of the session ends no challenge at all (692-696):
  `LockCutsOffIff`, `LapseCutsOffIff`.
- **A capability can be released twice** in one case (`jti-store.ts` 44-57 with `ed25519-capability.ts`
  380-390, where `exp` is still good in its own second and `iat` may lie a minute ahead): exactly when it is
  first spent in the second of `iat` or earlier, or later by no more than the time between the check and the
  spending of the repeat: `SecondReleaseIff`.
- **The five and fifteen minute lockouts need overlapping logins** (`login-rate-limiter.ts` 5 and 67-72,
  `server.ts` 767-784). An expired lockout restarts the count, so for logins one at a time every lockout lasts
  one minute. A longer one arises exactly when five, or ten, failures are recorded on top of a lockout, by
  logins that were checked before it was set; that takes six, or eleven, logins waiting together:
  `LockoutIsByLateFailures`, `WaitingBeganBeforeLock`, `OverlapBoundsLockout`, `OverlapBoundsAreTight`.
- **Failures a moment old can be forgotten** (`login-rate-limiter.ts` 22 and 114-124 purge what had no activity
  for half an hour). A record counts from when it was opened, not from its last failure, so the sweep takes it
  half an hour after its first failure unless it locks: `SweepKeepsIff`, `SweepForgetsRecentFailures`.
- **A failed probe does not always re-open the breaker**: after one good probe it leaves it half open:
  `ProbeFailureReopensIff`, `MixedProbesStayHalfOpen`.
- **`sanitizeHostname` is not idempotent**: the cut at 253 characters may leave a final dot: `IdempotentIff`.
- **The deny band of the default risk policy is never reached**: `DefaultDenyIffClosed`.
- **A proven challenge is not "one-time use"** (`challenge.ts` 10 and 225): it serves every request for its
  binding until it expires: `AllowIffProven`.

## Model

| member | source | states |
|---|---|---|
| StepUpPromises.OwedReleaseWasApproved | src/background/auditor.ts:1004-1082 | in every run, with any interleaving, failing reads and writes and evictions: a release whose binding has a refusal where the check looks, in memory or on record, goes out only on an approval of exactly that binding that is there too; Core and Plus accepted it, and it was begun with its proof, logged in, before its challenge expired |
| StepUpPromises.VerdictIff | src/background/auditor.ts:1046-1068 | a granted release is refused exactly when a refusal is where the check looks and no approval is |
| StepUpPromises.GrantedReleaseIff | src/background/auditor.ts:1046-1068 | the same in terms of what memory held when the check began, or, if memory did not know the binding, what was on record when the check read it |
| StepUpPromises.UnapprovedReleaseIff | src/background/auditor.ts:1046-1068 | exactly when a granted release goes out with no approval where the check looks: memory holds no refusal of it, and the read of the record fails or finds none |
| StepUpPromises.PassedOverDebtIff | src/background/auditor.ts:1057-1066 | a release goes out over an unpaid debt its worker has recorded exactly when the debt was recorded after the check began |
| StepUpPromises.PassedOverRecordIff | src/background/auditor.ts:1313-1317 | and over an unpaid debt on record, after a check that read the record, exactly when it was not there at that read but was written, or brought back, after it |
| StepUpPromises.ApprovalReusedIff | src/domain/services/autofill/step-up-flow.ts:225-247 | for two releases of a binding, exactly when the later rests on an approval made before the earlier spent: its check looked in memory before that, or looked on record and the approval was still there |
| StepUpPromises.RestsOnIff | src/background/auditor.ts:1046-1068 | a check rests on some approval exactly when the copy of the gate that decided has the binding paid |
| StepUpPromises.ReusedMeansUnwritten | src/background/auditor.ts:1288-1296 | an approval from before a spending is still on record only while that spending has not been written |
| StepUpPromises.StillOnRecordIff | src/background/auditor.ts:1260-1296 | while no read for a write fails and nothing is removed, an approval on record stays exactly until a spending of its binding is written |
| StepUpPromises.ApprovalIsSpentOnce | src/domain/services/autofill/step-up-flow.ts:225-247 | so where the earlier release was answered, its spending written, before the later check began, the later one rests on no approval made before the earlier |
| StepUpLedgers.MemoryIff | src/background/auditor.ts:1118-1133 | a binding is owed, or paid, in memory exactly when a refusal, or an approval, of it was recorded and not spent or forgotten since |
| StepUpLedgers.RecordIff | src/background/auditor.ts:1150-1178 | and on record exactly when one was written, no write has dropped it since, and every removal since was undone |
| StepUpLedgers.WriteRestores | src/background/auditor.ts:1260-1272 | whatever comes between the read and the write of a change, the record becomes what was read with the change in it, and no other write comes between |
| StepUpLedgers.LeavesRecordIff | src/background/auditor.ts:1229-1272 | exactly when a refusal or an approval leaves the record: a removal, a written spending of its binding, or any write whose read had failed |
| StepUpLedgers.ReturnsToRecordIff | src/background/auditor.ts:1260-1272 | exactly when one comes to it: its own change is written, or another that had read it before a removal |
| StepUpLedgers.AnsweredInOrder | src/background/auditor.ts:1248-1272 | what the running worker has recorded is what has been answered and what waits, in that order |
| StepUpLedgers.HeldCopyTells | src/background/auditor.ts:1229-1263 | the copy a waiting write holds is the record as it was at the last read for a write |
| StepUpRuns.RefusalOvertaken | src/background/auditor.ts:1046-1073 | a run in which a release goes out over a refusal answered before it, wipes its debt, and nothing was ever approved |
| StepUpRuns.UnwrittenRefusalIsLost | src/background/auditor.ts:1248-1272 | a run in which a refusal is answered unwritten, the worker stopped, and the binding goes out with no failed read and nothing ever approved |
| StepUpRuns.FailedReadLosesRefusal | src/background/auditor.ts:1229-1263 | a run in which a refusal on record is lost to the write of another binding whose read failed, and the binding goes out with nothing ever approved |
| StepUpRuns.LapseInsideIsUndone | src/background/auditor.ts:698-708 | after any run, a lapse that falls between the read and the write of a change leaves on record the copy that was read, with the change |
| StepUpRuns.ClearedApprovalComesBack | src/background/auditor.ts:1260-1272 | a run in which a release goes out on an approval that a lapse of its session had cleared |
| StepUpRuns.TwoReleasesOnOneApproval | src/domain/services/autofill/step-up-flow.ts:225-247 | whenever two releases of a paid binding wait together and both are granted and checked before either spends, both go out |
| StepUpRuns.UnwrittenSpendingIsReused | src/domain/services/autofill/step-up-flow.ts:225-247 | a run in which two releases of a binding, one after the other, go out on one approval because the spending of the first was not written |
| StepUpRuns.PendingIsOwedUnpaid | src/background/auditor.ts:1330-1352 | in every run the pending list is what was refused and neither approved nor released since, by the record as it was read and by memory as it is when the list is made |
| StepUpRuns.EvictionKeepsPendingIff | src/background/auditor.ts:1320-1329 | an eviction leaves the list as it is exactly when what is pending in memory, and every approval in memory of a debt on record, is on record |
| StepUpRuns.EvictionKeepsPendingAtRest | src/background/auditor.ts:1320-1329 | so it does, while the chain's reads and writes succeed and the record is not removed, whenever no write is waiting |
| StepUpRuns.WritesFollowMemory | src/background/auditor.ts:1274-1296 | while the chain's reads and writes succeed and the record is not removed, memory holds only what is on record or waiting to be; and all of it unless the worker was stopped or the session ended |
| StepUpRuns.WouldOweIff | src/background/auditor.ts:1309-1318 | what a check finds, in terms of what is in memory and on record |
| StepUpRuns.VerdictAtRestIff | src/background/auditor.ts:1309-1318 | with nothing forgotten, failed or waiting, a release is withheld exactly if it is owed and unpaid |
| StepUpRuns.PaidButWithheldIff | src/background/auditor.ts:1298-1318 | exactly when a binding whose approval is on record is withheld all the same |
| StepUpRuns.EvictedThenChallengedAgain | src/background/auditor.ts:1298-1318 | after any run that leaves a binding owed and paid, an eviction and one more challenge by Plus lead to that refusal, with nothing pending |
| StepUpRuns.ApprovedRun | src/background/auditor.ts:1607-1702 | a run that leaves a binding owed and paid exists for every binding with a credential and an origin |
| StepUpCeremonies.ApprovedWasStarted | src/background/auditor.ts:1617-1686 | every approval, recorded or persisted, answers a challenge started earlier for the same binding, a managed credential and a user logged in |
| StepUpCeremonies.ApprovedWasAccepted | src/background/auditor.ts:1617-1690 | in every run a completion is recorded only by an approval that was accepted, whose handler began it with its proof, logged in, before the challenge expired and after it was started |
| StepUpCeremonies.RecordsIff | src/background/auditor.ts:1046-1073 | what a step records, and exactly when: a refusal where Plus asks for a challenge or the check finds one owed, a spending where a release goes out, a completion where an approval was accepted |
| StepUpCeremonies.RefusalsChangeNothing | src/background/auditor.ts:1638-1696 | an approval that is not accepted, or a release that is denied, changes nothing but that its handler is done |
| StepUpCeremonies.StartsIff | src/background/auditor.ts:1459-1518 | exactly when a challenge is started and held, and for how long |
| StepUpCeremonies.AsksIff | src/background/auditor.ts:1617-1636 | exactly when an approval asks Core and Plus, and that a late one ends its challenge |
| StepUpCeremonies.CutsOffIff | src/background/auditor.ts:1116-1133 | from a moment on every approval answers a challenge started later, if and only if at that moment no approval waits and no unexpired challenge is held |
| StepUpCeremonies.LockCutsOffIff | src/background/auditor.ts:268-323 | a lock that succeeds ends the challenges under way exactly when no approval waits for Core, for Plus or for its write |
| StepUpCeremonies.LapseCutsOffIff | src/background/auditor.ts:698-708 | the lapse of a session by itself ends none of them |
| StepUpCeremonies.EvictionCutsOff | src/background/auditor.ts:1088-1099 | an eviction ends them all, whatever is waiting |
| StepUpSessions.ReleaseBeginsIff | src/background/auditor.ts:1004-1044 | in every run a release begins exactly while the keys of the last unlock are there and less than 1,800,000 milliseconds old, and memory does not hold its binding refused and unpaid |
| StepUpSessions.ReleasedWasUnlocked | src/background/auditor.ts:1004-1082 | so whatever goes out was begun in an unlocked session and then granted, by one handler |
| StepUpSessions.LockSucceedsIff | src/background/auditor.ts:291-318 | exactly when a lock succeeds, and what the worker then has forgotten |
| StepUpSessions.NothingBeginsWhileLocked | src/background/auditor.ts:268-318 | after it no release begins before the vault is unlocked again |
| StepUpGate.GateRecordsHistory | src/background/auditor.ts:1150-1178 | in every run, whatever reads and writes fail and whatever comes between them, memory, the copy held for a write and the record are exactly what the replies say is owed and paid |
| StepUpGate.StepKeeps | src/background/auditor.ts:1274-1296 | one step changes each copy of the gate by exactly what its reply says |
| StepUpGate.WithholdsIff | src/domain/services/autofill/step-up-flow.ts:225-247 | in any gate a completion pays for exactly the binding it names, and only if it is completed |
| GateWriteRuns.GateRunsTheChain | src/background/auditor.ts:1248-1272 | every run of the gate is a run of the chain below: its calls are the changes recorded, the unsettled ones wait in order, and what is stored is the record |
| GateWriteRuns.ReadFollows | src/background/auditor.ts:1260-1263 | a read of the chain is due exactly for the first change that waits, while nothing is held, and is the worker's read |
| GateWriteRuns.WriteFollows | src/background/auditor.ts:1263-1268 | a write is due exactly for the change that holds a copy, and is the worker's write |
| GateWriteRuns.RecordIsWhatWasWritten | src/background/auditor.ts:1248-1272 | so in every run without failed reads for writes and removals, the record is all the written changes, entry by entry, in the order they were recorded |
| StepUpFastPath.FullPathRefusesToo | src/background/auditor.ts:1015-1032 | where the early refusal answers, the full path would not have released either, and leaves the same state exactly when the session is unlocked |
| StepUpFastPath.FastPathOnlySavesTime | src/background/auditor.ts:1015-1032 | over any run of whole calls whose early refusals come in unlocked sessions, taking the early refusal out changes neither the releases nor the state |
| StepUpFastPath.LapsedRefusalMatters | src/background/auditor.ts:716-724 | in a lapsed session it does: the same three calls release with the full path and refuse with the early one |
| StepUpFastPath.LapsedRun | src/background/auditor.ts:653-682 | a run from the start that leads to such a state |
| StepUpWorker.ServiceWorker.IsSessionUnlocked | src/background/auditor.ts:661-682 | unlocked: a key, a start inside the 30 minute window, and no stated expiry passed |
| StepUpWorker.ServiceWorker.ReadSessionVek | src/background/auditor.ts:716-739 | a lapsed session is forgotten in memory, but for the ceremonies, and reads as locked |
| StepUpWorker.ServiceWorker.ExpireSessionKeyMaterial | src/background/auditor.ts:698-708 | then the persisted gate and all session keys go |
| StepUpWorker.ServiceWorker.BeginReleaseCredential | src/background/auditor.ts:1004-1044 | a release up to the network: the early refusal, then the key |
| StepUpWorker.ServiceWorker.ProbeReleaseCredential | src/background/auditor.ts:1046-1073 | once the outcome is known: a refusal is recorded, a grant is checked against memory |
| StepUpWorker.ServiceWorker.PersistedGateOwes | src/background/auditor.ts:1313-1317 | for a binding memory does not know, the verdict of the persisted gate; a failed read finds nothing owed |
| StepUpWorker.ServiceWorker.FinishReleaseCredential | src/background/auditor.ts:1057-1066 | with the verdict in hand: refused and recorded, or spent and out |
| StepUpWorker.ServiceWorker.RememberChallenged | src/background/auditor.ts:1274-1279 | memory has the refusal at once, its write takes its place in the chain |
| StepUpWorker.ServiceWorker.RememberCompleted | src/background/auditor.ts:1281-1286 | likewise a completion |
| StepUpWorker.ServiceWorker.SpendStepUp | src/background/auditor.ts:1288-1296 | likewise the spending of both halves |
| StepUpWorker.SessionArea.ReadPersistedGate | src/background/auditor.ts:1229-1246 | the stored gate, or an empty one for a record that is missing or cannot be read |
| StepUpWorker.ServiceWorker.ReadGateForWrite | src/background/auditor.ts:1260-1263 | the first write in line takes its copy of the persisted gate |
| StepUpWorker.ServiceWorker.WriteGate | src/background/auditor.ts:1263-1270 | it stores that copy with its change, or fails and is given up; its handler answers either way |
| StepUpWorker.ServiceWorker.HandleGetPendingStepUp | src/background/auditor.ts:1330-1352 | with the gate that was read, the loops over it and memory list each challenged, uncompleted key once |
| StepUpWorker.ServiceWorker.HandleStartStepUp | src/background/auditor.ts:1459-1518 | each refusal in its order; a triggered challenge is held for its binding |
| StepUpWorker.ServiceWorker.BeginApproveStepUp | src/background/auditor.ts:1607-1630 | no proof, an unknown or an expired challenge is refused before anyone is asked |
| StepUpWorker.ServiceWorker.FinishApproveStepUp | src/background/auditor.ts:1635-1702 | an accepted approval uses the challenge up and records the completion for its binding |
| StepUpWorker.ServiceWorker.BeginLockVault | src/background/auditor.ts:280-289 | a lock removes keys and gate from storage, or part of them |
| StepUpWorker.ServiceWorker.FinishLockVault | src/background/auditor.ts:292-318 | it fails if either is still there, what was removed staying removed; otherwise memory is emptied, but for the writes in line |
| BindingKey.KeyIsInjective | src/background/auditor.ts:1135-1144 | the JSON text of the three fields identifies the binding, whatever quotes, backslashes or brackets they contain |
| BindingKey.EscapeAllEndsAtQuote | src/background/auditor.ts:1142-1144 | a quoted field ends at its quote: it determines its text and everything after it |
| GateWriteChain.NoUpdateIsLost | src/background/auditor.ts:1248-1272 | for every interleaving of any number of calls, with any writes failing and evictions, the stored gate is the fold of the successful changes in call order, and what a call holds is what is stored |
| GateWriteChain.OneHolds | src/background/auditor.ts:1261-1271 | at most one call is between its read and its write |
| GateWriteChain.NeverStuck | src/background/auditor.ts:1260-1272 | while a call is unsettled one can go on |
| GateWriteChain.EveryCallSettles | src/background/auditor.ts:1266-1268 | every queued call gets its turn and settles as its own write fares, however the earlier ones fared |
| GateWriteChain.UnchainedLosesUpdate | src/background/auditor.ts:1248-1250 | without the chain two overlapping changes lose the first, with it they do not |
| GateWriteChain.RemovalBetweenCallsHolds | src/background/auditor.ts:280-289 | a removal between calls is kept: what is stored later comes from later changes alone |
| GateWriteChain.RemovalHoldsIff | src/background/auditor.ts:701-707 | a removal during a call holds exactly when the call holds nothing but what it changes |
| GateWriteChain.UnreadableReadIsHarmlessIff | src/background/auditor.ts:1229-1246 | a failed read under a successful write loses nothing exactly when nothing else was stored |
| PlusProtocol.AllowNeedsApproval | plus/api/server.ts:400-499 | in every run, a request above the first threshold by the server or the client, in a step-up state or of assurance 3 is allowed only after an approval minted a capability for exactly its binding, through a challenge that has not expired |
| PlusProtocol.OneCapabilityPerChallenge | plus/domain/services/challenge.ts:340-471 | over any run a challenge mints at most one capability, whatever the token store forgets |
| PlusProtocol.OneCapabilityPerApproval | plus/domain/services/challenge.ts:417-428 | and so does a signed approval |
| PlusProtocol.OneOutstandingPerBinding | plus/domain/services/challenge.ts:202-222 | no reachable table has two outstanding, unexpired challenges for one binding |
| PlusProtocol.CreateReturnsTheOutstandingOne | plus/domain/services/challenge.ts:257-265 | while one is outstanding, asking again returns its id and expiry and writes nothing |
| PlusProtocol.RowsOnlyEvolve | plus/domain/services/challenge.ts:185-191 | completed, expired and failed are absorbing; binding and expiry never change |
| PlusProtocol.CompletedWasApproved | plus/domain/services/challenge.ts:450-454 | every completed row was completed by an approval that minted a capability for its binding |
| Challenges.MintedCapability | plus/domain/services/challenge.ts:340-471 | what a minted capability implies about the stored challenge, the approval and the key, and that it carries the stored binding at assurance 3 |
| Challenges.MintsIff | plus/domain/services/challenge.ts:340-428 | exactly which approvals mint, field by field: status, expiry, key, names, window in seconds, operation, token id |
| Challenges.MintGives | plus/domain/services/challenge.ts:430-454 | the capability field by field, and the one row that changes |
| Challenges.RefusesIff | plus/domain/services/challenge.ts:340-428 | every refusal in its order by its cause, and that only a late approval writes |
| Challenges.CreatedLasts | plus/domain/services/challenge.ts:249-326 | an outstanding challenge is given again; otherwise the new row field by field, for ten minutes |
| Challenges.ChallengeService.Find | plus/domain/services/challenge.ts:211-244 | the newest row that qualifies is found, and none only if none qualifies |
| Challenges.ChallengeService.FindOutstandingChallenge | plus/domain/services/challenge.ts:211-222 | the newest outstanding, unexpired challenge for the binding |
| Challenges.ChallengeService.FindCompletedChallenge | plus/domain/services/challenge.ts:233-244 | the newest proven, unexpired one |
| Challenges.ChallengeService.CreateChallenge | plus/domain/services/challenge.ts:249-326 | an outstanding challenge is reused; otherwise one new row, pending if the email fails |
| Challenges.ChallengeService.VerifyApprovalAndMint | plus/domain/services/challenge.ts:340-471 | every refusal in order, and the row it leaves: completed, expired or untouched |
| Challenges.CleanupIsInvisible | plus/infrastructure/repositories/PostgresChallengeRepository.ts:447-461 | whatever is found from then on, outstanding or proven, is what would have been found without the cleanup: no proof in its window is lost |
| Challenges.CleanupSparesApprovals | plus/infrastructure/repositories/PostgresChallengeRepository.ts:447-461 | and an approval succeeds exactly as without it, but for a challenge approved at the very instant it expires |
| CapabilityGate.PlusApiServer.AuthorizeCapabilityRequest | plus/api/server.ts:400-460 | the verdict and the table for every request |
| CapabilityGate.PlusApiServer.ResolveThirdFactor | plus/api/server.ts:468-499 | a proven challenge allows unless another is named; otherwise the challenge to answer |
| CapabilityGate.AllowIffProven | plus/api/server.ts:474-498 | a served request that calls for a factor and names no challenge is allowed if and only if one is proven for its binding, and the proof is not used up |
| CapabilityGate.AllowNeedsProof | plus/api/server.ts:462-499 | a factor-bound allow always rests on a proven, unexpired challenge for the binding, the one the request names if it names one |
| CapabilityGate.FactorRequiredIff | plus/api/server.ts:441-454 | a third factor is required exactly for a step-up state, factors above the first threshold, a client score above it, or assurance 3 |
| CapabilityGate.UnprovenAllowIff | plus/api/server.ts:400-460 | without a proven challenge a request is allowed exactly when its entitlement is open and allows the operation, its user is known, and neither state nor scores nor assurance call for more |
| CapabilityGate.RefusalsIff | plus/api/server.ts:408-446 | every refusal in its order, with exactly its case, and that it writes nothing |
| CapabilityGate.NamedAllowIff | plus/api/server.ts:474-498 | a request that names a challenge is allowed exactly if it names the newest one proven for its binding |
| CapabilityGate.ChallengeIsAnswerable | plus/api/server.ts:474-499 | a challenge that is handed out is outstanding for the requested binding, an old one or a new one of ten minutes |
| CapabilityGate.SundayExportIsChallenged | plus/domain/services/risk-engine.ts:117-177 | an export from an unusual country on a Sunday scores 30.5 under the default policy and is challenged |
| CapabilityGate.ClientScoreOnlyRaisesRisk | plus/api/server.ts:441-446 | raising the client's score never turns a challenge or a denial into an allow |
| CapabilityGate.LocationIsIrrelevant | plus/api/server.ts:426-439 | the remembered locations cannot change a decision of this route |
| CapabilityGate.DefaultPolicyNeverDeniesForRisk | plus/api/server.ts:447-449 | under the default policy no request is denied for its risk |
| RiskEngine.AdaptiveRiskEngine.CalculateWeightedScore | plus/domain/services/risk-engine.ts:502-512 | the loop computes the weighted average, and 0 without weight |
| RiskEngine.AdaptiveRiskEngine.EvaluateRequest | plus/domain/services/risk-engine.ts:205-255 | factors, total and decision, and the location it remembers |
| RiskEngine.ScoreIsAnAverage | plus/domain/services/risk-engine.ts:502-512 | for non-negative weights of positive sum the score lies between the least and the greatest factor |
| RiskEngine.ScoreIsMonotone | plus/domain/services/risk-engine.ts:502-512 | raising a factor never lowers the score |
| RiskEngine.BandsIff | plus/domain/services/risk-engine.ts:514-535 | for any policy: allowed up to the first threshold, challenged up to the second, denied above both, in the open states; step-up is challenged and closed denied |
| RiskEngine.CountryScores | plus/domain/services/risk-engine.ts:257-288 | 50 for no country, 30 without habits, 0 for a habitual one in any case, otherwise the policy's risk up to 80 |
| RiskEngine.DeviceScores | plus/domain/services/risk-engine.ts:302-327 | 40 without a device, 0 for a known one, otherwise 50 |
| RiskEngine.TimeScores | plus/domain/services/risk-engine.ts:329-358 | 0 from Monday to Friday from 8:00 to 18:59, otherwise 25, for every week, day and hour |
| RiskEngine.DefaultBandsIff | plus/domain/services/risk-engine.ts:514-535 | under the default policy an open entitlement is allowed up to 30 and challenged up to 70 |
| RiskEngine.DefaultCountryRisks | plus/domain/services/risk-engine.ts:117-177 | the default risk of every country |
| RiskEngine.DefaultMultiplierScores | plus/domain/services/risk-engine.ts:360-432 | what the default policy adds for each operation, criticality and state |
| RiskEngine.HistoryScores | plus/domain/services/risk-engine.ts:434-500 | what recent failures, average risk, request rate and a change of country add |
| RiskEngine.DefaultScoreBound | plus/domain/services/risk-engine.ts:117-177 | an enabled state scores at most 44.25 and a temporary one 46.65, for every context and history |
| RiskEngine.DefaultScoreBoundIsTight | plus/domain/services/risk-engine.ts:117-177 | 46.65 is attained |
| RiskEngine.RouteScoreBound | plus/api/server.ts:426-439 | in the capability route the score is at most 36.9 |
| RiskEngine.DefaultDenyIffClosed | plus/domain/services/risk-engine.ts:514-535 | under the default policy a decision is deny exactly for a closed state |
| Entitlement.ReopensIff | plus/domain/entities/entitlement.ts:97-163 | exactly which changes of state or validity reopen an entitlement that is closed or has ended |
| Entitlement.OpenAfterIff | plus/domain/entities/entitlement.ts:97-163 | the state in effect at any time after a change of state or validity |
| Entitlement.EndedStaysClosed | plus/domain/entities/entitlement.ts:97-163 | without one of those it is closed at every later time, over any sequence of changes |
| ManagedRelease.UseCase.Run | src/application/use-cases/managed-release.use-case.ts:123-196 | the result and the token store after it, every refusal in its order |
| ManagedRelease.ConfigurationComesFirst | src/application/use-cases/managed-release.use-case.ts:198-229 | without the pinned key, the context or the vault every token is refused alike, before anything is verified or spent, and these refusals mean nothing else |
| ManagedRelease.ReleaseIsBound | src/application/use-cases/managed-release.use-case.ts:123-196 | a release implies the pinned signature, all four bindings, a releasable operation, the window and the vault, and spends the token id |
| ManagedRelease.ReleasesIff | src/application/use-cases/managed-release.use-case.ts:123-196 | exactly which requests are released, field by field, and that the share is the one stored under the reference |
| ManagedRelease.RefusalsAreTrue | src/infrastructure/crypto/ed25519-capability.ts:370-416 | every refusal tells the truth about the request |
| ManagedRelease.RefusalsThatSpend | src/application/use-cases/managed-release.use-case.ts:134-182 | refusals up to and including the token check leave the store alone; only those after it have spent the token |
| ManagedRelease.ReleasesAreAWindowApart | src/infrastructure/crypto/jti-store.ts:44-57 | over any run two releases under one token id are at least the token's window apart |
| ManagedRelease.AtMostOneRelease | src/application/use-cases/managed-release.use-case.ts:82-164 | a capability first spent after the second of its `iat`, by more than a repeat takes from its check to its spending, is not released by that repeat, anywhere in the run |
| ManagedRelease.SecondReleaseIff | src/infrastructure/crypto/ed25519-capability.ts:380-390 | where executions take at most some pause from check to spending, a later repeat succeeds if and only if the first spent no later than that pause after the second of `iat`, and in or before the second of `exp` |
| ManagedRelease.SecondReleaseExample | src/infrastructure/crypto/ed25519-capability.ts:380-384 | a deployment and a token that is released twice, both times in full |
| ReplayStore.InMemoryJtiStore.TryConsume | src/infrastructure/crypto/jti-store.ts:44-57 | first use exactly when no unexpired entry stands, and the entry it leaves |
| ReplayStore.InMemoryJtiStore.IsConsumed | src/infrastructure/crypto/jti-store.ts:59-68 | consumed exactly while the entry lasts; a lapsed one is dropped |
| ReplayStore.InMemoryJtiStore.Cleanup | src/infrastructure/crypto/jti-store.ts:70-77 | exactly the lapsed entries go |
| ReplayStore.InMemoryJtiStore.VerifyAndConsume | src/infrastructure/crypto/jti-store.ts:206-223 | a short id is refused without a trace, a standing one as a replay |
| ReplayStore.EntryOutlivesItsTtl | src/infrastructure/crypto/jti-store.ts:33-77 | an admitted entry stays until its ttl has run, whatever is admitted or swept meanwhile |
| ReplayStore.AdmissionsAreATtlApart | src/infrastructure/crypto/jti-store.ts:202-223 | two admissions of one id are at least the first ttl apart |
| LoginLimiter.GuardedFailureBound | src/infrastructure/api/login-rate-limiter.ts:56-124 | in a guarded run of T milliseconds at most 5 * (T / 60000 + 1) failures are recorded for an email, whenever the sweep fires |
| LoginLimiter.GuardedFailureBoundIsTight | src/infrastructure/api/login-rate-limiter.ts:17-22 | the bound is attained for every number of minutes |
| LoginLimiter.GuardedLockoutsLastOneMinute | src/infrastructure/api/login-rate-limiter.ts:56-102 | where each failure is recorded right after a check, every lockout lasts one minute |
| LoginRoute.LockoutIsByLateFailures | src/infrastructure/api/server.ts:766-790 | with logins overlapping in any way, exactly how long a lockout is: one minute below five failures recorded on top of it, five minutes from five on, fifteen from ten on |
| LoginRoute.WaitingBeganBeforeLock | src/infrastructure/api/server.ts:766-776 | those failures are of logins that were checked before the lockout was set |
| LoginRoute.LateIsOverlap | src/infrastructure/api/server.ts:766-790 | there are fewer of them than logins that ever waited together |
| LoginRoute.OverlapBoundsLockout | src/infrastructure/api/server.ts:766-790 | so with k logins overlapping a lockout is at most the tier for k + 4 failures |
| LoginRoute.OverlapFailureBound | src/infrastructure/api/server.ts:766-790 | and at most (k + 4) * (T / 60000 + 1) failures are recorded in T milliseconds |
| LoginRoute.OverlapBoundsAreTight | src/infrastructure/api/server.ts:766-790 | within one instant both are attained, for every k |
| LoginLimiter.LockoutIsNeverShortened | src/infrastructure/api/login-rate-limiter.ts:56-124 | once locked until some instant, an email is reported locked at every earlier one, under any sequence of events |
| LoginLimiter.UnguardedFailuresClimbTheTiers | src/infrastructure/api/login-rate-limiter.ts:80-102 | unguarded failures in a row lock for one minute from the fifth, five from the tenth and fifteen from the fifteenth, and each moves the lockout later |
| LoginLimiter.RetryAfterIsTimeLeft | src/infrastructure/api/login-rate-limiter.ts:56-102 | a failure that locks tells how long, and a check exactly the time that is left of it |
| LoginLimiter.SweepKeepsIff | src/infrastructure/api/login-rate-limiter.ts:114-124 | a record survives exactly for half an hour from when it was opened or restarted, or from the end of its lockout |
| LoginLimiter.FirstFailureSurvives | src/infrastructure/api/login-rate-limiter.ts:114-124 | a failure that opens a record or locks survives for half an hour |
| LoginLimiter.SweepForgetsRecentFailures | src/infrastructure/api/login-rate-limiter.ts:114-124 | later failures on an open record do not |
| LoginLimiter.GetLockoutDuration | src/infrastructure/api/login-rate-limiter.ts:43-51 | the loop over the tiers picks the last one reached |
| LoginLimiter.LoginRateLimiter.IsLocked | src/infrastructure/api/login-rate-limiter.ts:56-75 | the answer, and the restart of an expired record |
| LoginLimiter.LoginRateLimiter.RecordFailure | src/infrastructure/api/login-rate-limiter.ts:80-102 | the answer, and the one record it opens or raises |
| LoginLimiter.LoginRateLimiter.RecordSuccess | src/infrastructure/api/login-rate-limiter.ts:107-109 | the record goes |
| LoginLimiter.LoginRateLimiter.Cleanup | src/infrastructure/api/login-rate-limiter.ts:114-124 | exactly the stale records go |
| CircuitBreaker.FailureStreakBound | src/shared/circuit-breaker.ts:33-77 | in every sequential run a streak of failures spanning T reaches the function at most threshold + T / timeout times |
| CircuitBreaker.RunIsThrottled | src/shared/circuit-breaker.ts:60-77 | the failure count is the length of the trailing streak, and the breaker is open exactly when that has reached the threshold |
| CircuitBreaker.FailingBackendBound | src/shared/circuit-breaker.ts:43-58 | so an always failing function is invoked at most threshold + T / timeout times |
| CircuitBreaker.FailingBackendBoundIsTight | src/shared/circuit-breaker.ts:33-58 | the bound is attained for every number of timeouts |
| BreakerOverlap.OverlappingBackendBound | src/shared/circuit-breaker.ts:33-77 | with at most k calls in flight together, all failing, at most threshold + k - 1 + k * (T / timeout) are let through |
| BreakerOverlap.OverlappingBackendBoundIsTight | src/shared/circuit-breaker.ts:33-77 | attained for every k and every number of timeouts |
| CircuitBreaker.NoTimeoutNeverRejects | src/shared/circuit-breaker.ts:33-41 | without a positive timeout nothing is ever rejected |
| CircuitBreaker.ProbeFailureReopensIff | src/shared/circuit-breaker.ts:71-77 | a failed probe re-opens exactly when the failures since the last success reach the threshold |
| CircuitBreaker.FirstProbeFailureReopens | src/shared/circuit-breaker.ts:71-77 | the first probe always does |
| CircuitBreaker.ProbesCloseIff | src/shared/circuit-breaker.ts:60-69 | good probes in a row close an open breaker exactly from the success threshold on, whatever was counted before |
| CircuitBreaker.MixedProbesStayHalfOpen | src/shared/circuit-breaker.ts:60-77 | a bad probe after a good one does not, and the next good one closes the breaker |
| CircuitBreaker.Breaker.GetState | src/shared/circuit-breaker.ts:33-41 | reading the state moves an open breaker to half open once the timeout has run |
| CircuitBreaker.Breaker.Execute | src/shared/circuit-breaker.ts:43-58 | which calls are rejected, and the state a settled call leaves |
| CircuitBreaker.Breaker.Reset | src/shared/circuit-breaker.ts:79-83 | closed, with both counts at zero and the time of the last failure kept |
| Retry.WithRetry | src/shared/retry.ts:33-55 | which attempt is the last, its result, that all before failed with a listed error, that the last succeeded, was the last allowed or failed with another, and the total wait |
| Retry.WaitingIsBounded | src/shared/retry.ts:25-31 | waiting is at most one maximal delay per repeated attempt |
| Retry.RetryableIff | src/shared/retry.ts:20-23 | an error is retried exactly if a listed fragment stands in its message, or nothing is listed |
| Retry.DelaysGrow | src/shared/retry.ts:25-31 | delays grow by the multiplier up to the cap and stay there |
| Retry.DefaultWaits | src/shared/retry.ts:13-18 | the waits of the default options |
| Retry.FailingBackendIsShielded | src/infrastructure/repositories/PostgresCredentialRepository.ts:200-206 | through breaker and retry together a backend on which every attempt fails is called at most maxAttempts * (threshold + T / timeout) times |
| Retry.OverlappingBackendIsShielded | src/infrastructure/repositories/PostgresCredentialRepository.ts:200-206 | and with at most k queries in flight together at most maxAttempts * (threshold + k - 1 + k * (T / timeout)) times |
| Levenshtein.LevenshteinSimilarity | src/domain/utils/levenshtein.ts:21-50 | the two-buffer program returns one less the cost of the cheapest edit script over the longer length, 0 where the strings have nothing in common, and refuses exactly inputs over 100 characters |
| Levenshtein.ComputeRow | src/domain/utils/levenshtein.ts:52-56 | one row of distances from the row before it |
| Levenshtein.DistanceIsLeastScriptCost | src/domain/utils/levenshtein.ts:34-48 | the recurrence is the least cost of any edit script from one string to the other |
| Levenshtein.Symmetric | src/domain/utils/levenshtein.ts:21-50 | the distance does not depend on the order |
| Levenshtein.ZeroIffEqual | src/domain/utils/levenshtein.ts:21-50 | it is zero for equal strings only |
| Levenshtein.TriangleInequality | src/domain/utils/levenshtein.ts:21-50 | a detour is never shorter |
| Levenshtein.LengthBounds | src/domain/utils/levenshtein.ts:21-50 | it is at most the longer length and at least the difference |
| Levenshtein.SimilarityLaws | src/domain/utils/levenshtein.ts:12-20 | the similarity is in [0, 1], symmetric, 1 exactly for equal strings, 0 against an empty one |
| Levenshtein.SimilarityNormalises | src/domain/utils/levenshtein.ts:32-50 | the similarity is one less the least script cost over the longer length |
| Levenshtein.NothingInCommonIsZero | src/domain/utils/levenshtein.ts:21-50 | strings with no character in common have similarity 0 |
| Yaml.ReadUndoesWrite | src/infrastructure/api/swagger.ts:73-106 | every writable tree, written in any way whose indentation grows level by level, with texts in double quotes, in single quotes or bare, white space around keys and values, and blank lines, comments and lines without a colon anywhere, is read back unchanged |
| Yaml.ReadPrint | src/infrastructure/api/swagger.ts:73-106 | in particular printed with a fixed step |
| Yaml.PutReplaces | src/infrastructure/api/swagger.ts:95-101 | a key that comes again replaces the value where it stands |
| Yaml.StackIsAncestorChain | src/infrastructure/api/swagger.ts:84-102 | after any lines, indentations grow strictly up the stack and each object on it is a child of the one below |
| Yaml.YamlToJson | src/infrastructure/api/swagger.ts:73-106 | the program with its stack of shared objects returns an object that stands for what the reader above reads, and for a written tree for that tree |
| YamlText.ParseScalarText | src/infrastructure/api/swagger.ts:108-121 | every writable scalar is read back from each of its spellings; a bare text, or an array text JSON.parse rejects, as itself |
| YamlText.NumberForms | src/infrastructure/api/swagger.ts:112-113 | digits after at most one minus are an integer, digits on both sides of a point a decimal, and nothing less is |
| Hostname.LabelCapIsRedundant | src/infrastructure/browser/DomainNormalizerAdapter.ts:49-51 | the cap at 127 labels never changes the result |
| Hostname.SanitizedIsWellFormed | src/infrastructure/browser/DomainNormalizerAdapter.ts:44-52 | at most 253 characters, labels of at most 63 from a-z, 0-9 and the hyphen, none empty but one after a final dot |
| Hostname.LegalNameIsKept | src/infrastructure/browser/DomainNormalizerAdapter.ts:44-52 | a name of legal labels comes back unchanged, or cut at 253 characters |
| Hostname.IllegalCharacterVanishes | src/infrastructure/browser/DomainNormalizerAdapter.ts:47 | any other character but the dot vanishes wherever it stands |
| Hostname.UnfitLabelVanishes | src/infrastructure/browser/DomainNormalizerAdapter.ts:48 | an empty label or one over 63 characters vanishes and the rest stays |
| Hostname.SecondApplication | src/infrastructure/browser/DomainNormalizerAdapter.ts:44-52 | a second application drops a final dot and nothing else |
| Hostname.ThirdApplication | src/infrastructure/browser/DomainNormalizerAdapter.ts:44-52 | a third changes nothing |
| Hostname.IdempotentIff | src/infrastructure/browser/DomainNormalizerAdapter.ts:50-51 | the sanitiser is idempotent on exactly the inputs whose joined labels have no dot as the 253rd of more characters |
| Hostname.NotIdempotentExample | src/infrastructure/browser/DomainNormalizerAdapter.ts:50-51 | concrete labels for which it is not |
| Hostname.NotIdempotent | src/infrastructure/browser/DomainNormalizerAdapter.ts:50-51 | every name whose labels end right before the 253rd character and go on after it comes back changed |

## Left out

- StepUpWorker.ServiceWorker.ReadSessionVek: the entries of the session in storage are read together.
- StepUpWorker.ServiceWorker.HandleGetPendingStepUp: the order of the list is not stated.
- StepUpWorker.ServiceWorker.HandleStartStepUp: the reads of local storage and the request to Plus are answers given to one step, at the time the challenge is registered.
- StepUpFastPath.FastPathOnlySavesTime: calls one after another, whose reads and writes succeed; between overlapping calls the early refusal also answers earlier than the full path would.
- CapabilityGate.PlusApiServer.AuthorizeCapabilityRequest: requests, triggers and approvals run to completion one at a time; two concurrent creations of a challenge are not modelled.
- Challenges.ChallengeService.CreateChallenge: the lifetime of a challenge is the default ten minutes, and the attempt limit, which no longer limits anything, is not kept.
- LoginLimiter.LoginRateLimiter.IsLocked: the clock is read once per call.
- LoginRoute.OverlapFailureBound: runs in which no login of the email succeeds; a success forgives what came before it.
- CircuitBreaker.Breaker.Execute: a call starts and settles in one method; calls that overlap are in `BreakerOverlap`, over the same state functions, for runs in which all fail.
- Retry.FailingBackendIsShielded: the queries come one after another; for overlapping ones `OverlappingBackendIsShielded` counts the attempts of a query when it is let through.
- BindingKey.KeyIsInjective: strings have no lone surrogates, which JSON.stringify escapes.
- Yaml.YamlToJson: objects keep their keys in insertion order; integer-like keys, which JavaScript moves to the front, and the key `__proto__`, which is no ordinary key there, are not modelled.
- YamlText.ParseScalarText: decimals, and integers beyond 2^53, which parseInt rounds, are kept as their text, and what JSON.parse accepts is a parameter.
- Hostname.SanitizedIsWellFormed: the sanitiser itself only; URL parsing and lower-casing before it are not part of this model.
- RiskEngine.DefaultScoreBound: scores are real numbers, not floating point; letters outside ASCII are not upper-cased in country codes.
- Levenshtein.LevenshteinSimilarity: the quotient is exact; strings are sequences of characters rather than UTF-16 units.
- ManagedRelease.UseCase.Run: signatures are an abstract predicate over tokens, the share either unwraps or does not, and the zeroing of buffers is not modelled; times and token fields are whole numbers.
- ReplayStore.InMemoryJtiStore.TryConsume: the Redis store is not part of this model.
- HTTP routing, request bodies, authentication headers, timeouts of network calls and logging.
- Ed25519, HKDF, AES-GCM and base64.
- The SQL of the repositories, apart from the order in which challenges are found and which rows the cleanup deletes; database writes succeed.
- The second, 15 minute session window of master-key-manager.ts, which the worker's own paths do not consult.
- The pilot measurements, the email text, the admin pages and the benchmarks.
