# A verified model of the machine-credential core

This project models, in Dafny, the part of the command-line core in which several processes meet at one
shared store: the file lock with stale takeover, the credential document and its atomic replacement, the
refresh machine against a rotating authorization server, login commits and sign-out, editor sessions, and
the TOML merge writer. It states what that code is for and proves it over all inputs, runs and
interleavings.

## How the model is built

| file | models |
|---|---|
| `LockProtocol.dfy`, `LockSafety.dfy`, `LockResidual.dfy` | the lock as a state machine, one step per file-system call, any number of processes, crashes and failing calls at every step |
| `CredentialLock.dfy` | the lock class, statement by statement, as one process of that machine |
| `AtomicFile.dfy`, `CredentialFile.dfy` | temp file, sync, rename with retry, over a disk that records every moment; and what `readState` finds there at each of them |
| `MachineCredentials.dfy` | the credential document, its two versions, and the store |
| `AuthorizationServer.dfy` | the refresh grant: rotation, reuse detection, grace window (section 6 of RFC 6749, section 4.14.2 of RFC 9700) |
| `TokenRefresher.dfy`, `TokenEndpoint.dfy`, `DeadFamilyMemo.dfy` | what an answer says about a token, one request on the wire, the shared sidecar |
| `CredentialProvider.dfy`, `RenewedFamilies.dfy`, `MachineCredentialProvider.dfy` | the decisions of one provider; what an answer leaves in the family, the store and the caller's hands; and the provider object that takes the decisions in place |
| `RefreshDiscipline.dfy`, `RefreshVerdicts.dfy`, `SharedVerdicts.dfy` | one provider over any sequence of calls; when a condemned token goes out again, for one call, and for any number of providers whose calls overlap around one sidecar |
| `RefreshFleet.dfy`, `FleetSafety.dfy` | many providers, one store, one lock, one server |
| `ClientIdFallback.dfy` | one provider and the server: under which client id a token is presented |
| `LoginCommit.dfy` | logins, account switches, derivations and sign-outs as interleaved flows, and the methods that run them |
| `EditorProtocol.dfy`, `EditorAnswers.dfy`, `EditorSession.dfy` | any number of editor sessions around one lease, one step per exchange; what a session's answers say of its exchanges; and the session object as one of them |
| `TomlStrings.dfy`, `TomlValues.dfy`, `TomlLines.dfy`, `TomlConfig.dfy`, `TomlMerge.dfy`, `TomlAiAgentConfig.dfy`, `TomlText.dfy` | the TOML subset, its printer and parser, the merge on sections, and the writer on lines and texts |

A class of the source is a class here, with its fields changed in place; each of its methods is proved
against a specification function, and the theorems are about those functions. The environment's choices
(other processes, the clock, the network, the disk) are arbitrary: actions of a run, fields of an
environment value, or havocked answers.

## What is assumed

* Lock: `Timely` (a live holder's lock and a live claimant's intent stay under the staleness bar) and
  `NoOrphanIntent` (whatever intent is on disk, its creator is still between creating and releasing it). The
  second rules out a claimant that crashes with its intent on disk, the residual documented at
  `src/credential-lock.ts:50-54`, and also a live claimant that leaves its intent behind because its read-back,
  its clean-up unlink, or the read or unlink of its release failed (`src/credential-lock.ts:642`, `:654-657`,
  `:686-698`); `CrashedClaimantBreaksExclusion` shows that it is needed. Document bytes
  are fresh per creation. `CompareIsIdentity` and `RemovalsApart` need neither assumption. Liveness also
  takes each pass of `acquire` to be shorter than `ACQUIRE_BUDGET - LOCK_STALE_MS`.
* Clocks do not run backwards; all processes of a run read one clock.
* Atomic replacement: a write that returns without an error has taken every byte (`completeWrites`). The
  code does not look at the count `writeSync` returns (`src/atomic-file.ts:130`); without the assumption
  the model installs the prefix that was written, says so in its contract, and `ShortWriteTearsTheStore`
  shows what `readState` then finds. Encoded documents decode to themselves and no proper prefix of one
  decodes (`Invertible`, `SelfDelimiting`).
* Fleet: one holder of the lock at a time, which is the lock's theorem; a request in flight when its sender
  dies is processed before the lock changes hands; and, where answers are lost, that a token already rotated
  is presented again only inside its window and, if its family stores no client id, under the client it was
  minted for (`RefreshFleet.Prompt`). Without losses nothing is assumed of time.
* Sidecar: each read and each write of it is one atomic step. A call is four parts, the gate that reads it, the
  first attempt, the retry, and the epilogue that may write it; the calls of one provider follow one another,
  the parts of different providers' calls interleave freely.
* Client-id fallback: calls of one provider are sequential and not cancelled, and its successes reach the
  store. `CancelledRotationLeadsToRevocation` shows what a cancellation costs.
* Login: subjects are absent or non-empty, and an exchange answers for the account it was asked for
  (`LoginCommit.Honest`). Two lemmas give the exact conditions and the inputs that fail them.
* Editors: one host; the startup lock changes hands only while its holder is in the hook, up to the refresh
  behind it, or is dead; the spawn and the lease write are not interrupted and the write does not fail; start
  times tell reused pids apart; an editor that removes its own lease does so as it exits.
* TOML on texts: names, keys and values without line breaks, no line of the existing file ending in a lone
  carriage return, no deprecated section twice, and in our own section no key that starts with `[` and no
  array of strings with a doubled or quoting backslash.

## Where the code differs from its documentation

* `src/credential-provider.ts:377-378` and `:397-400` promise that a family seen dead stays dead and that a
  recorded verdict is adopted without a network call or a second event. The dead mark and the sidecar are
  matched against the caller's lock-free snapshot (`:379-382`, `:403-405`), but the token that goes out is the
  one the re-read under the lock shows (`:490-523`). `DeadTokenGoesOutAgain` and `RecordedTokenGoesOutAgain` are
  runs in which a dead token is presented and reported a second time; `TheSlotForgets` is one in which
  snapshot and re-read agree and another family's death has taken the sidecar's only slot.
  `MarkedTokenPresentedExactly`, `RecordedTokenPresentedExactly` and `DisciplinedExactly` give the exact conditions.
* The sidecar is read before the lock is taken (`src/credential-provider.ts:403-406`) and written after it is
  released (`:652`), so it cannot stop a call that is already past its gate. In `OverlappingCallsBothReport` two
  processes wake for the same dead token, snapshots and reads agree, and both send and report it;
  `RecordedDeathIsBounded` bounds the further events by the calls then past their gates.
* A verdict `invalid_target` whose description names the wrong client is reported but not recorded
  (`src/dead-family-memo.ts:62`); `RefreshVerdicts.Recorded` says when a verdict is.
* `src/credential-provider.ts:292-294` says an unreadable store raises the unreadable-store error; the entry
  points raise "login required" instead (`src/credential-provider.ts:713-724`), and only a store that turns
  unreadable during a refresh surfaces as such. The model follows the code.
* A 2xx answer that names `invalid_grant` and carries no access token is a terminal verdict
  (`src/token-refresher.ts:129-148`); `AnswerExactly` states which answers are.
* `parseStringArrayContent` unescapes an item that is already unescaped (`src/agent-config.ts:805`), so an
  array item with a doubled or a quoting backslash does not survive a read; `StringArrayRoundTripExactly`
  gives the exact condition and `UncPathLosesABackslash` an input.
* `result[key] = value` (`src/agent-config.ts:890`) sets no property when the key is `__proto__`, so an inline
  table with that key loses it; `TableReadsBackExactly` gives the exact condition.
* Configuring a file that `configure` just created drops its final line break
  (`SecondRunDropsTheFinalBreak`); after that nothing changes.

## Model

| member | source | states |
|---|---|---|
| `LockSafety.MutualExclusion` | src/credential-lock.ts:302-573 | after any run at most one process is between a verified create and its release, and the lock file carries exactly its bytes in the file it created |
| `LockSafety.CompareAndDeleteExact` | src/credential-lock.ts:342-387 | whoever changes an existing lock file created it, or is a takeover unlink of exactly the artifact judged stale, a minute old, or a day if it names another host or none, and owned by no live process; an intent is only changed by its creator |
| `LockSafety.RunInv` | src/credential-lock.ts:302-700 | the inductive invariant over program counters, file contents and ages holds in every reachable state |
| `LockUnconditional.CompareIsIdentity` | src/credential-lock.ts:464-475 | with no assumption at all: a process that comes to trust the lock or the intent finds the very file it created |
| `LockUnconditional.RemovalsApart` | src/credential-lock.ts:309-333 | with no assumption: two removals by one process are at least the staleness bar apart |
| `LockUnconditional.RemovalsWaitForTheBar` | src/credential-lock.ts:498-526 | with no assumption: a lock or intent about to be unlinked was judged a day old if it names another host, whatever its case, or none, and a minute old otherwise |
| `LockResidual.CrashedClaimantBreaksExclusion` | src/credential-lock.ts:44-54 | a timely run in which a crashed claimant's intent lets two processes into the critical section |
| `CredentialLock.PeersRun` | src/credential-lock.ts:302-340 | any run of the other processes leaves this one where it was and keeps the invariant and the spacing of removals |
| `CredentialLock.MachineCredentialLock.Acquire` | src/credential-lock.ts:302-340 | terminates; an acquired lock is exclusive under the assumptions; busy only after the whole budget; a lone waiter acquires when the lock it meets passes its bar, a minute or, for another host's, a day, within a minute, and is busy with the lock untouched when it does not within the wait |
| `CredentialLock.MachineCredentialLock.TryExclusiveCreate` | src/credential-lock.ts:423-476 | a create that reports success has read its own bytes back from the file it created |
| `CredentialLock.MachineCredentialLock.TryStaleTakeover` | src/credential-lock.ts:498-573 | every call it makes is accounted for: with peers running, as long as the assumptions held, it removed at most the lock it judged and changed no other file but its own intent; alone, it removes the lock exactly when that is a minute old, or a day for one that names another host or none, and gives the intent back |
| `CredentialLock.MachineCredentialLock.TryAcquireTakeoverIntent` | src/credential-lock.ts:585-665 | an intent is held only after its own bytes were read back |
| `CredentialLock.MachineCredentialLock.ReleaseTakeoverIntent` | src/credential-lock.ts:684-699 | with peers running, as long as the assumptions held, it changes no intent but its own; alone, it deletes the intent that carries its bytes |
| `CredentialLock.MachineCredentialLock.Release` | src/credential-lock.ts:342-364 | always ends the hold; with peers running, as long as the assumptions held, it changes no lock but its own; alone, it deletes exactly the lock that carries its bytes |
| `CredentialLock.MachineCredentialLock.Refresh` | src/credential-lock.ts:372-387 | true only while the lock is still ours, and alone its age then starts again; with peers running, as long as the assumptions held, it changes no lock but its own |
| `CredentialLock.MachineCredentialLock.DeleteStoreUnderLock` | src/credential-lock.ts:409-420 | the store is unlinked only inside an acquired hold, and the hold ends even when the unlink throws |
| `CredentialLock.NextBackoffMs` | src/credential-lock.ts:702-706 | the delay doubles up to the cap and is jittered within its bounds |
| `AtomicFile.WriteFileAtomic` | src/atomic-file.ts:114-171 | in every prefix of the call the target holds its old bytes or those the write call took, which are all the new ones on a disk with complete writes; an error leaves it unchanged; a temp file it did not create is never touched; and it fails only if a call failed or the renaming was given up |
| `AtomicFile.RenameWithRetry` | src/atomic-file.ts:98-112 | again after a transient holder and only then, at most five attempts, success exactly if the last one renamed; each leaves the files as they were or renamed |
| `AtomicFile.FillTemp` | src/atomic-file.ts:128-136 | only the temp file's bytes change, stopping at the first call that fails |
| `MachineCredentials.SchemaInvariant` | src/machine-credentials.ts:373-390 | over every sequence of write, rotate, writeFamily and delete the top-level triple mirrors the plugin family, else legacy, else is absent, and families never sit under a version below 2 |
| `MachineCredentials.AdoptionIsFaithful` | src/machine-credentials.ts:251-282 | adoption is idempotent, keeps the effective families, identity and unknown fields, and ends mirrored; a document without families has the one its top-level tokens make |
| `MachineCredentials.FamilyWriteFrame` | src/machine-credentials.ts:526-548 | a family write changes that family and the stamped identity and nothing else; the version becomes at least 2 |
| `MachineCredentials.RotationFrame` | src/machine-credentials.ts:495-517 | a rotation moves the tokens of one plugin-plane family; client, scope, other families and unknown fields stay |
| `MachineCredentials.MachineCredentialStore.Write` | src/machine-credentials.ts:373-390 | what is stored is well mirrored and shows the families, identity and unknown fields of the document written |
| `CredentialFile.CredentialStore.Write` | src/machine-credentials.ts:373-390 | on disk, with the codec and any call failing: an error changes nothing at any moment; a complete write is at every moment the old or the new document; a short one leaves neither |
| `CredentialFile.CredentialStore.Rotate` | src/machine-credentials.ts:495-517 | fails closed exactly on an unreadable store; a failure changes nothing; else the new tokens are the stored top level, and `readState` never finds a third state |
| `CredentialFile.CredentialStore.WriteFamily` | src/machine-credentials.ts:526-548 | fails closed exactly on an unreadable store it may not replace; a failure changes nothing; else the family is stored, and `readState` never finds a third state |
| `CredentialFile.CredentialStore.Delete` | src/machine-credentials.ts:551-557 | the store is gone, or the unlink failed and it is as it was; no other file changes |
| `CredentialFile.ShortWriteTearsTheStore` | src/atomic-file.ts:128-138 | a document cut short by the disk reads as missing when nothing arrived, else as unreadable |
| `AuthorizationServer.RunKeepsChain` | test/fake-as.ts:319-446 | in every reachable server state generations are unique per family, only the newest row can be live, scope only narrows, and each cached pair names the direct successor |
| `AuthorizationServer.AtMostOneLiveRow` | test/fake-as.ts:352-446 | a family has at most one live row, and it is the newest |
| `AuthorizationServer.ReplayIsGracedIffDirectPredecessor` | test/fake-as.ts:352-371 | a replay is answered with a pair if and only if it is the minting client, in the window, for the direct predecessor of the live head; then nothing is written, otherwise the family is dead |
| `AuthorizationServer.GraceAnswersOnlyTheDirectPredecessor` | test/fake-as.ts:461-492 | whatever scope or resource it names, an answered replay is for the direct predecessor and writes nothing |
| `AuthorizationServer.RetryReturnsTheSamePair` | test/fake-as.ts:407-424 | an answered retry returns the rotation's own pair by value, however much happened in between, and rotates nothing |
| `AuthorizationServer.DeadFamilyStaysDead` | test/fake-as.ts:496-502 | a revoked family never has a live row again, over any run |
| `AuthorizationServer.HandleCases` | test/fake-as.ts:319-446 | a request leaves the chain alone, rotates one live row of its own client, or revokes one family |
| `AuthorizationServer.HandleMeans` | test/fake-as.ts:319-446 | every request on every server: the rung that refuses it, and otherwise the fresh pair, its row one generation on with the scopes asked for, the revoked predecessor and the cached record; for a replay, exactly when it is answered, with what, and which rows else are revoked |
| `AuthorizationServer.FakeAuthorizationServer.HandleTokenRequest` | test/fake-as.ts:319-446 | the server object after a request and its answer are the specified ones, and those `HandleTells` spells out |
| `AuthorizationServer.FakeAuthorizationServer.RevokeFamily` | test/fake-as.ts:496-502 | the loop revokes exactly the live rows of the family |
| `AuthorizationServer.FakeAuthorizationServer.TryRotationGrace` | test/fake-as.ts:461-492 | answers the cached record exactly when every rung passes |
| `AuthorizationServer.FakeAuthorizationServer.StoreRotationGrace` | test/fake-as.ts:452-457 | from then on a prompt replay of the predecessor by its client is answered with exactly this pair while the successor lives; replays of other tokens are answered as before |
| `AuthorizationServer.FakeAuthorizationServer.MintFamily` | test/fake-as.ts:231-256 | adds a fresh family with one live row for thirty days |
| `TokenRefresher.AnswerExactly` | src/token-refresher.ts:119-157 | exactly which answers succeed, with which tokens and until when; which may be retried; and which condemn the presented token |
| `TokenRefresher.MismatchTextOfDescribedFailure` | src/token-refresher.ts:54-56 | a recorded failure names a client mismatch exactly when its code or its description does |
| `TokenRefresher.ServerAnswersUnderstood` | src/token-refresher.ts:49-64 | a grant arrives with its tokens and its lifetime; which refusals a client takes as a verdict, as a mismatch, and that none is transient |
| `TokenEndpoint.HandleEffect` | src/token-refresher.ts:110-116 | what one form, without scope or resource, can do to the chain, and what its answer then is |
| `DeadFamilyMemo.MatchIsTheLastVerdict` | src/dead-family-memo.ts:43-72 | a token matches if and only if the last verdict any process managed to record was about it |
| `DeadFamilyMemo.SlotHoldsTheLastVerdict` | src/dead-family-memo.ts:60-72 | what the single slot holds after any verdicts |
| `DeadFamilyMemo.PersistedDeadFamilyMemo.Write` | src/dead-family-memo.ts:60-72 | the sidecar changes only for a recordable verdict the disk accepts |
| `CredentialProvider.FallbackMembers` | src/credential-provider.ts:804-808 | the fallback list holds exactly the usable ids, each once, never the default |
| `CredentialProvider.FallbackOrder` | src/credential-provider.ts:799-808 | the sibling plugin comes first when usable, the enroll client first or right behind it |
| `RenewedFamilies.AttemptMeans` | src/credential-provider.ts:450-635 | one attempt, in terms of the lock, the document read and the answers: when it adopts, asks or gives up, under which ids the token goes out, and that a successful answer makes a family with its tokens and expiry, the fallback id recorded, scope and unknown fields kept, stored beside the others unless the store refuses it |
| `RenewedFamilies.CallMeans` | src/credential-provider.ts:371-447 | one call: refreshed exactly if its last entry was answered with tokens, and then with that family; adopted only from a read that shows it; dead only on a verdict it or its memory or the sidecar holds, with the reason and event of that answer |
| `RenewedFamilies.RetryMeans` | src/credential-provider.ts:416-429 | a call presents its token a second time exactly after a first attempt that failed for the moment, if the caller needs it and has not cancelled, unless the second look under the lock decides otherwise |
| `MachineCredentialProvider.Provider.Present` | src/credential-provider.ts:534-557 | the candidate loop ends at the first answer that is more than a mismatch or over budget |
| `MachineCredentialProvider.Provider.CriticalSection` | src/credential-provider.ts:474-635 | memory, store, outcome and log after the section are the specified ones |
| `MachineCredentialProvider.Provider.Settle` | src/credential-provider.ts:559-611 | a success makes a family with the answer's access token and expiry, its refresh token or the presented one, and the id that went out if it was not the family's own; what else the last answer does to the provider's maps is as specified |
| `MachineCredentialProvider.Provider.Persist` | src/credential-provider.ts:613-634 | the rotated family is written, or the store is left as it was |
| `MachineCredentialProvider.Provider.LockedAttempt` | src/credential-provider.ts:450-472 | the memory, store, outcome and log of one attempt are those `AttemptTells` spells out |
| `MachineCredentialProvider.Provider.MarkFamilyDead` | src/credential-provider.ts:643-663 | one memory mark, one sidecar write, one event, or nothing when already marked |
| `MachineCredentialProvider.Provider.RefreshFamily` | src/credential-provider.ts:371-447 | the memory, store, outcome and log of a whole call are those `CallTells` and `RetryTells` spell out |
| `MachineCredentialProvider.Provider.GetAccessToken` | src/credential-provider.ts:296-327 | no network while the token is fresh; after an answer with tokens its access token is handed out, with a peer's fresh tokens in the store the peer's; any other token is the current one while it lasts, or one a read showed; never a refusal while the current one lasts; busy and unreadable only where they were met; a second presentation only once the current one is over |
| `MachineCredentialProvider.Provider.Refresh` | src/credential-provider.ts:343-363 | after an answer with tokens serves a document topped by exactly those; otherwise by a peer's that a read showed, or denies; busy and unreadable only where they were met |
| `MachineCredentialProvider.ServedDocumentShowsTheRefreshedFamily` | src/credential-provider.ts:748-770 | the served document shows the refreshed tokens on top and the same family inside, persisted or not |
| `MachineCredentialProvider.PlaneIsServed` | src/credential-provider.ts:690-712 | which family serves a plane: the agent's except for the hub, then the plugin's and the legacy one except for the agent plane |
| `RefreshDiscipline.NeverLoops` | src/credential-provider.ts:371-663 | over any calls in any environment: attempts keep their distance; a condemned token is not presented as long as every read of its family still shows it, and each such token was reported exactly once |
| `RefreshDiscipline.AttemptsKeepTheirDistance` | src/credential-provider.ts:384-395 | two consecutive network attempts of a family are a window apart, or the second is the one prompt retry of a transient failure |
| `RefreshVerdicts.MarkedTokenPresentedExactly` | src/credential-provider.ts:377-405 | a provider presents the token it has marked dead if and only if its snapshot shows another one that is not recorded dead, the window has passed, and the read under the lock (or, after a transient failure, the retry's) shows the marked token |
| `RefreshVerdicts.RecordedTokenPresentedExactly` | src/credential-provider.ts:397-415 | the same for any provider and the token the sidecar names |
| `RefreshVerdicts.CallExactly` | src/credential-provider.ts:371-447 | for every token: whether one call presents it, hears a verdict on it, and how often it reports it, each as a condition on memory, sidecar, snapshot and what the reads show |
| `RefreshVerdicts.SlotAfterCall` | src/credential-provider.ts:643-663 | a call without a report leaves the sidecar; a report that is recorded leaves it naming the token |
| `RefreshVerdicts.DisciplinedExactly` | src/credential-provider.ts:371-447 | over any calls of a provider, each with whatever sidecar it meets, so whatever other processes do: it never presents a token after its verdict and reports each verdict exactly once, if and only if behind every open gate the locked reads show no token it heard a verdict on and no re-read shows another token |
| `RefreshVerdicts.MismatchRecordIsIgnored` | src/dead-family-memo.ts:43-54 | a sidecar record that names the wrong client, whoever wrote it, changes nothing a call does |
| `SharedVerdicts.ProviderRunsItsCalls` | src/credential-provider.ts:371-447 | whatever parts of other providers' calls fall between its own, a provider's memory and log are those of its finished calls one after the other |
| `SharedVerdicts.RunExactly` | src/credential-provider.ts:371-447 | over any interleaving of call parts, a token goes out if and only if some part, as the fleet then stands, sends it; there are exactly as many events as reporting epilogues |
| `SharedVerdicts.RecordedTokenInRunExactly` | src/credential-provider.ts:397-415 | while the sidecar names a token and no call of its family passed its gate before it did, the token goes out in a run if and only if some call slips |
| `SharedVerdicts.RecordedDeathIsBounded` | src/credential-provider.ts:403-415 | from any point where the sidecar names a token: it stays named, and its further events plus the calls still under way from before never outnumber the calls that were past their gates then; without such calls it is not sent |
| `SharedVerdicts.RecordedTokenStaysSilent` | src/credential-provider.ts:397-415 | once recorded, with no call of its family past its gate at that moment, a token is never presented or reported again by anyone, as long as each locked read that shows it agrees with its snapshot and no other death is reported |
| `SharedVerdicts.RecordedDeathIsReportedOnce` | src/credential-provider.ts:643-663 | under those conditions on reads and other deaths a recorded death has one event, and at most one more for each call of its family past its gate at that moment |
| `SharedVerdicts.EveryProviderKeeps` | src/credential-provider.ts:371-663 | each provider of a fleet of overlapping calls keeps the whole discipline of a single provider |
| `SharedVerdicts.DeadTokenGoesOutAgain` | src/credential-provider.ts:379-405 | one provider, working sidecar: a token it reported dead is presented and reported again |
| `SharedVerdicts.RecordedTokenGoesOutAgain` | src/credential-provider.ts:397-405 | a second process presents and reports the token the sidecar names |
| `SharedVerdicts.TheSlotForgets` | src/dead-family-memo.ts:60-72 | snapshots and reads agree, but a second family's death took the slot: a third process presents and reports the first token again |
| `SharedVerdicts.OverlappingCallsBothReport` | src/credential-provider.ts:403-447 | snapshots and reads agree and no other token dies: two calls past their gates both send the same token, and its death has two events |
| `FleetSafety.FleetWithoutLosses` | src/credential-provider.ts:474-635 | without losses no family is revoked and no grace is used, and whenever the lock is free the stored token is its family's only live row |
| `FleetSafety.FleetSurvivesLosses` | src/credential-provider.ts:597-634 | with losses the store holds the live head or its direct predecessor, nothing is revoked, and grace hits plus families behind never outnumber the losses |
| `FleetSafety.RetryCatchesUp` | test/fake-as.ts:352-366 | a prompt retry of a family left behind hears the rotation's own pair; the server rotates and writes nothing |
| `FleetSafety.RunKeeps` | src/credential-provider.ts:474-635 | the fleet's invariant holds in every reachable state |
| `FleetSafety.ExchangeEffect` | test/fake-as.ts:319-446 | a prompt presentation is refused without trace, rotates the live token, or is graced |
| `ClientIdFallback.FallbackIsSafe` | src/credential-provider.ts:523-611 | a token already rotated is never presented under another id, and a success leaves the minting client as the family's first id |
| `ClientIdFallback.MismatchWritesNothing` | test/fake-as.ts:378-381 | a client mismatch leaves the chain as it was and is said only of a live token by another client |
| `ClientIdFallback.FallbackFindsTheMintClient` | src/credential-provider.ts:534-557 | answered in time, the loop succeeds at the first candidate that is the minting client |
| `ClientIdFallback.CancelledRotationLeadsToRevocation` | src/credential-provider.ts:559-563 | after a cancelled request that rotated the token the default id goes first, and unless it is the minting client the family is revoked |
| `ClientIdFallback.SafePresentation` | test/fake-as.ts:352-446 | a presentation of a live token, or by its minting client, ends with a live successor, a live token, or a transient or terminal answer to the minting client |
| `LoginCommit.OneAccount` | src/login-commit.ts:352-385 | over every interleaving each stored family whose commit knew an account belongs to the document's subject |
| `LoginCommit.DeriveKeepsOneAccountExactly` | src/login-commit.ts:589-623 | the if-and-only-if condition for a derivation to keep the store one account's |
| `LoginCommit.DerivationsThatMixAccounts` | src/login-commit.ts:600-612 | stores on which an exchange without, or with an unexpected, subject breaks the rule |
| `LoginCommit.PlainCommitKeepsOneAccountExactly` | src/login-commit.ts:372-384 | a plain commit keeps one account unless its subject is the empty string while other families are owned |
| `LoginCommit.NoResurrection` | src/login-commit.ts:571-602 | from any point where the store is missing, only a plain login commit brings it back |
| `LoginCommit.UnreadableIsLeftAlone` | src/login-commit.ts:589-602 | an unreadable store is replaced by a plain login or removed by a sign-out, by nothing else |
| `LoginCommit.UnsuccessfulEndLeavesNoTrace` | src/login-commit.ts:356-375 | declined, aborted and exchange-failed ends leave the document as that step found it |
| `LoginCommit.OnlyAConfirmedSwitchDropsFamilies` | src/login-commit.ts:356-371 | families leave the document only by sign-out or by a switch confirmed for exactly the stored account |
| `LoginCommit.RefreshWrites` | src/credential-provider.ts:490-507 | a critical section writes only a family it found, and leaves the document's identity |
| `LoginCommit.LoginSurface.RunAccountSwitchGuard` | src/login-commit.ts:174-220 | asks exactly when two known accounts differ, goes on only with a yes, and permits a replacement exactly when the store named the other account |
| `LoginCommit.LoginSurface.CommitFamily` | src/login-commit.ts:352-385 | commits exactly if the premise still holds; then the minted family is stored as minted, with the minted subject and server where given, beside the families found or alone after a confirmed switch |
| `LoginCommit.LoginSurface.DerivePluginFamily` | src/login-commit.ts:589-623 | writes exactly into a readable store of no other account; then the derived family is the plugin's, beside the families found, and a missing subject is filled in |
| `LoginCommit.LoginSurface.CommitAgentLogin` | src/login-commit.ts:437-510 | the whole login, with peers rewriting the store before either hold: its answer and the store it leaves, the minted family under the first hold and the derived one under the second, spelled out on every branch; `AgentLoginIsItsFlow` makes it a run of the transition system |
| `LoginCommit.LoginSurface.CommitToolsOnlyLogin` | src/login-commit.ts:677-714 | the same for the tools-only login and its single hold; `ToolsOnlyLoginIsItsFlow` makes it such a run |
| `LoginCommit.AgentLoginIsItsFlow` | src/login-commit.ts:437-510 | from any state of the system, with any steps of others before either hold, the flow of an agent login ends with the store and the outcome of the login as computed, on every branch |
| `LoginCommit.ToolsOnlyLoginIsItsFlow` | src/login-commit.ts:677-714 | the same for a tools-only login and its single hold |
| `LoginCommit.AgentLoginKeepsOneAccount` | src/login-commit.ts:437-510 | so the store an agent login leaves is one account's, whatever ran before it and beside it |
| `LoginCommit.LoginSurface.SignOutMachineWide` | src/login-commit.ts:747-786 | afterwards there is no store; every family with a refresh token and an id to name it by was sent for revocation, with that token under its own id or else the surface's, and no other |
| `EditorProtocol.AtMostOneEditor` | src/editor-session.ts:435-451 | over every interleaving of the sessions' single reads, looks, spawns and unlinks by path at most one session-started editor is alive, and once leased it is the one the lease names |
| `EditorProtocol.RunKeeps` | src/editor-session.ts:435-604 | the invariant over processes, lease, lock and what every session knows holds after every run |
| `EditorProtocol.KillsOnlyItsEditor` | src/editor-session.ts:596-600 | a kill right after a live verdict ends that lease's editor and no other process |
| `EditorProtocol.UnlinkNeedsTheLock` | src/editor-session.ts:762-779 | a run after which an unlink on a just-read matching lease, but without the lock, takes a newer lease, and the next launch makes two editors |
| `EditorProtocol.DeadLeaseMeansNoEditor` | src/editor-session.ts:745-751 | a lease judged dead, or absent, means that no session-started editor is alive |
| `EditorProtocol.StateExactly` | src/editor-session.ts:740-751 | a lease is live or dead only where that can be told: its pid is gone, or both start times are known |
| `EditorProtocol.OthersRun` | src/editor-session.ts:435-451 | any run of the other sessions and the processes leaves what this session knows, and the invariant |
| `EditorSession.Host.Enter` | src/editor-session.ts:435-604 | each exchange of the session object is its next step in the protocol, and is logged |
| `EditorSession.Host.OneEditorAlive` | src/editor-session.ts:435-451 | between any two exchanges of the session object at most one session-started editor is alive, and the lease names it |
| `EditorSession.EveryStartIsJustified` | src/editor-session.ts:435-451 | every start sits in one lock hold that saw no living lease and no other editor, ran the hook and then proved the lock still its own |
| `EditorSession.EveryCloseIsVerified` | src/editor-session.ts:583-604 | every quit request and every kill follows a live verdict on that pid with no request in between |
| `EditorAnswers.AnswersExactly` | src/editor-session.ts:413-510 | what those exchanges force: no binary only after the resolver found none, busy only after a missed lock or a lost one, a failed hook or launch only after that exchange, ready only on a probe just answered |
| `EditorAnswers.ClosingExactly` | src/editor-session.ts:544-604 | a close asks to quit if and only if the lease was judged live, kills only if told to, and says closed only of a pid seen gone |
| `EditorSession.Session.Ensure` | src/editor-session.ts:413-426 | at most three rounds, one resolver call and one start; its exchanges are those `Answers` spells out for its answer: unsupported exactly if the warm probe failed and there is nothing to start with, each refusal by its last exchanges, an editor of its own exactly if it spawned one |
| `EditorSession.Session.AttemptEnsure` | src/editor-session.ts:429-490 | what one round may add, that the last round always answers, that the re-decision after resolving terminates, and the exchanges of the round with its answer |
| `EditorSession.Session.DecideAndLaunch` | src/editor-session.ts:435-451 | a lease not dead is joined, an editor found is waited for, an unknown binary is resolved first, and otherwise hook, refresh and spawn decide: started exactly if all three succeeded |
| `EditorSession.Session.Follow` | src/editor-session.ts:453-490 | what becomes of each decision: the wait for the editor it names, its time-out, the look and clean-up after a failed start |
| `EditorSession.Session.WaitOrRetry` | src/editor-session.ts:493-503 | only an exit before the last round means deciding again |
| `EditorSession.Session.WaitForReady` | src/editor-session.ts:833-861 | ready, gone or out of time, by the first look or probe that says so; starts nothing |
| `EditorSession.ForeignWatch.Check` | src/editor-session.ts:515-538 | gone if and only if this scan and the one before it both missed the editor |
| `EditorSession.Session.CloseOwned` | src/editor-session.ts:544-554 | the editor of a lease judged live is asked to quit, a dead lease is cleaned up, and nothing else is touched; closed is said only of a pid seen gone |
| `EditorSession.Session.CloseLease` | src/editor-session.ts:583-604 | the request, the wait, the kill if asked for and still its editor, the last look, and the clean-up exactly when it was seen gone |
| `EditorSession.Session.KillIfStillOurs` | src/editor-session.ts:595-600 | kills only on a fresh live verdict |
| `EditorSession.Session.WaitForExit` | src/editor-session.ts:781-788 | terminates, its answer is the last observation, and it gives up only when the time is over |
| `EditorSession.Session.RemoveLeaseLocked` | src/editor-session.ts:766-779 | cleanup takes the lock at most once, starts nothing, and unlinks what is at the lease path only under a lock nobody can have overtaken, when the lease read under it is one whose editor was seen gone |
| `TomlStrings.BasicStringRoundTrip` | src/agent-config.ts:762-774 | printing and parsing a basic string is the identity for every string |
| `TomlStrings.UnescapeOfEscape` | src/agent-config.ts:712-714 | the parser's two passes undo the printer's two passes |
| `TomlStrings.StringArrayRoundTripExactly` | src/agent-config.ts:788-814 | an array of strings survives if and only if no item has a doubled or quoting backslash |
| `TomlStrings.UncPathLosesABackslash` | src/agent-config.ts:803-808 | an item on which the second unescaping loses a character |
| `TomlStrings.FindClosingQuote` | src/agent-config.ts:762-774 | the scanning loop finds the closing quote |
| `TomlStrings.ScanStringArray` | src/agent-config.ts:788-814 | the state loop computes the items |
| `TomlValues.TextsReadBack` | src/agent-config.ts:776-814 | a printed array of strings dispatches to the string parser and reads back exactly under that condition |
| `TomlValues.NumbersReadBack` | src/agent-config.ts:827-835 | a non-empty array of integers reads back as itself |
| `TomlValues.FlagsReadBack` | src/agent-config.ts:816-825 | a non-empty array of booleans reads back as itself |
| `TomlValues.PrintedArrayEnds` | src/agent-config.ts:900-926 | a printed array is cut from whatever follows it, and nothing of it is lost |
| `TomlValues.StripIsIdempotent` | src/agent-config.ts:900-926 | cutting off a comment twice is cutting it off once |
| `TomlValues.FindArrayEnd` | src/agent-config.ts:900-926 | the nesting loop computes that cut |
| `TomlValues.ParseIntArrayContent` | src/agent-config.ts:827-835 | the loop computes all integers or gives up on the first that is none |
| `TomlLines.TableReadsBack` | src/agent-config.ts:837-893 | a printed inline table whose keys are distinct and not `__proto__` reads back as itself |
| `TomlLines.TableReadsBackExactly` | src/agent-config.ts:837-893 | a list of pairs survives printing and parsing if and only if its keys are distinct and none is `__proto__` |
| `TomlLines.ScanPairs` | src/agent-config.ts:866-892 | the cursor loop computes the pairs |
| `TomlLines.ScanQuoted` | src/agent-config.ts:846-865 | the inner loop reads a quoted text |
| `TomlLines.PropertyReadsBack` | src/agent-config.ts:696-711 | print then parse is the identity on a whole property line |
| `TomlLines.BareKeyReadsBack` | src/agent-config.ts:696-711 | in particular a key of letters, digits, `_` and `-` does, with every printable value |
| `TomlLines.CommentsAreIgnored` | src/agent-config.ts:743-757 | a comment behind a printed text, number, flag or array changes nothing of what is read |
| `TomlLines.ParsedPropertyIsPrintable` | src/agent-config.ts:734-760 | whatever was parsed, except an array of strings, is printed in a form that parses to it again |
| `TomlConfig.SectionReadsBack` | src/agent-config.ts:618-624 | a printed section reads back as the properties it was printed from |
| `TomlConfig.ConfigureKeepsOutsideLines` | src/agent-config.ts:510-548 | every line before the first section and in a bystander is kept in order: any section that is not ours, not deprecated, and not one under the body path in which an identity key has a text equivalent to ours |
| `TomlConfig.UnconfigureKeepsOutsideLines` | src/agent-config.ts:550-578 | unconfiguring keeps those lines and adds none |
| `TomlConfig.DuplicateExactly` | src/agent-config.ts:644-668 | a duplicate is exactly another section under the body path in which an identity key has a text equivalent to ours |
| `TomlConfig.EquivalentExactly` | src/agent-config.ts:85-109 | when two texts count as the same: as they stand, as paths up to slashes turned or trailing, or as normalised URLs but for case |
| `TomlConfig.LastLineWins` | src/agent-config.ts:734-760 | a section gives each key the value of the last line that sets it |
| `TomlConfig.OnlyKeysSet` | src/agent-config.ts:734-760 | and has no key that no line sets |
| `TomlConfig.FlattenOfRead` | src/agent-config.ts:720-731 | cutting a file into sections loses no line |
| `TomlMerge.ConfigureIsIdempotent` | src/agent-config.ts:510-548 | configuring a configured file changes nothing |
| `TomlMerge.ConfigureSucceedsExactly` | src/agent-config.ts:612-642 | success if and only if every required value is a scalar or array and no key is both set and removed |
| `TomlMerge.ConflictingKeyFails` | src/agent-config.ts:531-532 | a key both set and removed ends up set, and failure is reported |
| `TomlMerge.OwnPropertiesExactly` | src/agent-config.ts:524-537 | our section afterwards: every key we set with our value, and of its earlier keys those neither set nor removed, unchanged |
| `TomlMerge.NoRivalIsLeft` | src/agent-config.ts:517-518 | after configuring or unconfiguring any file, no other section under the body path runs our command or serves our URL |
| `TomlMerge.UnconfigureExactly` | src/agent-config.ts:550-578 | where our section and each deprecated one occur at most once, unconfiguring leaves exactly the bystanders |
| `TomlMerge.AppendedBehindABlank` | src/agent-config.ts:531-536 | a new section of ours goes to the end behind a blank line, added exactly if the file does not end in one |
| `TomlMerge.ConfigureKeepsPlace` | src/agent-config.ts:520-530 | a section of ours that was there stays between the same bystanders |
| `TomlAiAgentConfig.FindTomlSection` | src/agent-config.ts:720-723 | the first line with that header, or none |
| `TomlAiAgentConfig.FindSectionEnd` | src/agent-config.ts:725-731 | the next header line, or the end |
| `TomlAiAgentConfig.ParseSectionProperties` | src/agent-config.ts:734-760 | the loop computes the section's properties |
| `TomlAiAgentConfig.Writer.MergeLines` | src/agent-config.ts:519-541 | the spliced lines are those of the configured sections, our own being printed, stripped of final breaks and split again; every bystander is kept in order and no rival is left |
| `TomlAiAgentConfig.MergedOnlyInOwnSection` | src/agent-config.ts:524-539 | whatever line breaks our values hold, the merged lines differ from those of the configured sections only in our own section |
| `TomlAiAgentConfig.Writer.FindDuplicateSectionIndices` | src/agent-config.ts:644-668 | the ranges found are exactly the duplicates' |
| `TomlAiAgentConfig.Writer.RemoveDuplicateSections` | src/agent-config.ts:670-676 | splicing from the last to the first removes exactly the duplicates |
| `TomlAiAgentConfig.Writer.Configure` | src/agent-config.ts:510-548 | success is reported only for the specified text, read back as configured; a throwing call is a failure; without one that text is written, with every bystander kept and no rival, and the answer is what is on file then |
| `TomlAiAgentConfig.Writer.Unconfigure` | src/agent-config.ts:550-578 | a reported change is the specified text on file, every bystander kept, no rival left, and exactly the bystanders where our sections were unique; unless a call throws, the file is rewritten exactly when something went |
| `TomlAiAgentConfig.Writer.IsConfigured` | src/agent-config.ts:600-642 | yes only when the section on file matches; unless the read throws, exactly then |
| `TomlText.ConfiguringTextTwice` | src/agent-config.ts:510-548 | on texts: configuring an existing file twice is configuring it once |
| `TomlText.ConfiguringTextSucceedsExactly` | src/agent-config.ts:542-544 | on texts: success exactly under the same condition |
| `TomlText.WrittenReadsBack` | src/agent-config.ts:935-937 | the written text reads back as the sections that were written |
| `TomlText.SecondRunDropsTheFinalBreak` | src/agent-config.ts:501-517 | a second run on a new file writes the same lines without the final line break |

## Left out

- The network itself: HTTP, timeouts and abort plumbing, the browser and loopback listener, device and authorization-code flows, discovery and registration. Requests are steps constrained by the server model.
- DPAPI and PowerShell host selection, file modes and directory creation, process spawning and reading start times: foreign calls. A codec failure is the `Unreadable` state.
- JSON text, SHA-256, ISO dates and randomness: documents are records, hashes are injective, instants are integer milliseconds, nonces and tokens are fresh.
- Writers that ignore the lock, clocks running backwards, several hosts with skewed clocks, and concurrent calls on one provider instance: outside the theorems.
- Wording of messages, warnings and status text, except the text that marks a client mismatch; failure reasons are shortened.
- A read of the store that throws during a login commit, the revocations a declined or confirmed switch and an aborted derivation send, the results of all revocations, and `warmUpCodec`.
- `prepareWindowOpen`, `.gitignore` upkeep, lease parsing, command lines and environment of a started editor: they would only add easy members.
- The JSON config writer, `pinUrl`, project identity, semver, checksums, unzip, tables, agents registry, plugin installation, setup-mcp planning and project keys: table data or short functions.
- TOML: `applyStdioAuthorization`, `isDetected` and `readServerEntry`; numbers that are not integers or exceed 2^53; the ordering JavaScript gives integer-like keys of an inline table; key order of characters outside the basic multilingual plane.
- AtomicFile.WriteFileAtomic: the target holds the bytes the write call really took, which are all of them only on a disk with complete writes.
- RefreshFleet: rate windows and dead marks of a provider are not consulted before it enters, so the theorems cover more runs than the code has; `RefreshDiscipline` and `ClientIdFallback` consult them.
