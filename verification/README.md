# Verified models of the workstation controller and worker

This project models the parts of the controller and worker whose correctness is not visible from
one function at a time, and proves what they are for:

- the WireGuard profile parser and canonical printer, and the encrypted store with its key rotation
  (`Text`, `WireGuard`, `WireGuardRoundTrip`, `WireGuardGrammar`, `WireGuardRules`, `ProfileStore`, `KeyRotation`, `RotationAfterSaves`);
- the workstation lifecycle: handlers, background jobs with stale snapshots, compare-and-swap,
  reconciliation and crashes, in every interleaving (`Lifecycle`);
- the worker: dependency-ordered container actions, the two Docker log demultiplexers, the rotating
  log writer and the persisted approvals (`Containers`, `Creation`, `Lives`, `DockerLogs`, `RotatingLog`, `Approvals`);
- the app store's versions: integrity data, install, activate, roll back (`AppStore`);
- time, counters and numbers: stored timestamps, share links, login back-off, PBKDF2, text contrast
  (`Timestamps`, `Shares`, `LoginGuard`, `Password`, `Theme`).

`dafny verify dfyconfig.toml` checks the whole project.

## How it is modelled

Code that changes things step by step is a class or a method with loops, specified by a function of
the old state; the properties are lemmas about those functions, or invariants that every method
keeps. Pure code is functions and lemmas.

Failures are data. Every file operation, engine call and database transaction takes its outcome from
a parameter (a plan, a list of faults, an `Ending`), and the results hold for all of them. An engine
call, a database transaction and replacing the approvals file may also take effect and still be
reported as an error. A local rename that reports an error has had no effect; a file write that does
may leave part of the file, and removing a directory may leave any part of it. Where a process can
die, it may stop at any operation, before or after its effect; so a statement about every plan covers
every point at which a run can be cut short. The clock, random bytes and directory listings are
parameters too.

A Go string is a sequence of bytes, and a `char` stands for one byte. AES-GCM, SHA-256, HMAC, base64,
CIDR, IP, host/port and integer decoding are function-valued parameters. Assumed of them, where it is
needed, is only this: decryption undoes encryption under the same key and fails under another
(`Sound`), no proper part of a ciphertext is authentic (`Authentic`), digests do not collide
(`CollisionFree`), a MAC has 32 bytes (`IsMac`), and base64 decoding undoes encoding and has no `$` in
its alphabet (`IsBase64`).

Where a promised property is false of the code, the model keeps the code and states exactly when it
holds:

- Printing and re-parsing a profile is stable exactly when the canonical text still fits the 64 KiB
  limit. It may be up to 20 bytes longer than the upload, and `SomeAcceptedProfileIsUnstable` builds a
  profile from genuine values, accepted by all decoders that read those values as Go does, whose own
  canonical text is refused (`ReparseCanonical`, `BoundIsAttained`).
- A session or share is not always refused from its expiry on. Stored texts are compared, so within
  the expiry's second it is refused at the very instant of expiry, but accepted after it while less
  than one unit of the last digit that the stored expiry shows has passed: a whole second for an
  expiry on a whole second, a tenth of a second for one at .5. In the other direction an instant is
  refused when it is less than one unit of its own last digit early. Across seconds the comparison is
  exact (`ExpiryExactly`).
- Starting a workstation succeeds, on a faultless engine, exactly if none of its containers runs, and
  stopping exactly if all of them do, because "already started" and "already stopped" are errors;
  restarting always succeeds (`RunAction`). So a start cut short by one refused call leaves a
  workstation that neither starts nor stops (`CutStartIsStuck`).
- An approval does not stand until it is replaced. It stands exactly as long as no approval under the
  same key is for a different specification or reports an error (`ApprovalSurvives`,
  `StandsThroughout`; a crash before the file is replaced does it no harm). A failed
  re-approval leaves it on disk but not in memory; from there it is allowed again if and only if the
  file is read back before it is next written; if an approval of any other app is written first, that
  erases it from the disk as well (`SuspensionEnds`, `OtherApprovalErases`), until it is itself approved again
  (`GoneForGood`).
- Saving a profile can make every later rotation fail: a save cut short leaves a file with a valid
  name that no key opens. Directories built by saves stay rotatable exactly if no save was cut short
  (`SavesStayRotatable`, `UnreadableBlocks`).

- Activation of an app is promised to be atomic (the repository's `README.md:189` and `app_store/docs/roadmap.md:8`). It
  leaves the old or the new directory active exactly unless it stops between its two renames, cannot
  put the old directory back after a failed swap, or puts back one that was not active because a
  left-over could not be removed (`AtomicUnlessTorn`). Over any run in which left-overs can be removed,
  crashes included, an active directory is always a whole stored version (`RunAll`); if one cannot,
  part of it may become active (`FailedClearActivatesPart`).
- Log capture goes on after errors, but not after a failed rotation: the handle stays closed, and no
  later write of the same capture loop reaches either file (`WriteAll`).

The two log demultiplexers agree where the program uses them: the decoder is given the first 2 MiB of
a response, and what it shows is always a prefix of what streaming the response captures
(`ShownIsPrefixOfCaptured`). As functions of unbounded inputs they differ exactly when the batch walk
meets a complete frame over 16 MiB (`BatchVersusStream`, `LargeFrameDiffers`).

Where the repository's text and its code differ, the model follows the code:

- `docs/recovery.md:48` advises retrying a deletion, but the table has no edge from deleting to
  deleting.
- The message "no profiles were changed" (`cmd/vpnkeyctl/main.go:152`) holds when rotation fails
  while staging; after a failed rename some profiles are already under the new key.
- Rotation decrypts and stages one profile after another; it does not decrypt everything first.

## Model

| member | source | states |
|---|---|---|
| `WireGuard.Parse` | internal/vpnprofiles/wireguard.go:21-114 | the line loop, section checks, validators in order and printing compute the function `ParseText`, about which the lemmas below speak, for every text and all library decoders |
| `WireGuard.WriteKeys` | internal/vpnprofiles/wireguard.go:181-192 | the builder loop appends one line per non-empty directive, in table order |
| `WireGuard.WriteCanonical` | internal/vpnprofiles/wireguard.go:170-179 | the printed text is the canonical text of the two sections |
| `WireGuardGrammar.ScanAcceptsGrammar` | internal/vpnprofiles/wireguard.go:38-66 | the line loop accepts a text if and only if it is grammatical (known sections opened once each; only allowed directives, inside a section, each set once there), a condition on the lines that mentions no parser state; it leaves exactly the section maps those lines denote, and otherwise reports the error of the first unacceptable line |
| `WireGuardGrammar.AcceptedProfiles` | internal/vpnprofiles/wireguard.go:21-114 | a profile is accepted if and only if its size is right, it is grammatical, and what it denotes is complete |
| `WireGuardGrammar.AcceptedMeaning` | internal/vpnprofiles/wireguard.go:98-113 | an accepted profile parses to the canonical text and endpoint of what its lines denote |
| `WireGuardGrammar.DenotesOnce` | internal/vpnprofiles/wireguard.go:38-66 | lines denote at most one pair of section maps, so the two lemmas above determine the result |
| `WireGuardGrammar.ForeignDirectiveRejected` | internal/vpnprofiles/wireguard.go:29-61 | no text with a directive outside the nine allowed ones, such as a command to run, is ever accepted |
| `WireGuardRules.AcceptedExactly` | internal/vpnprofiles/wireguard.go:21-168 | accepted if and only if the size is right, the text is grammatical with both sections, and every rule holds of what it denotes: keys decode, addresses and routes are there and all CIDRs, one route is 0.0.0.0/0, name servers are IPs, the endpoint is an IP and a port from 1 to 65535, MTU and keepalive in range; items are stated by position between commas |
| `WireGuardRules.RejectedBecause` | internal/vpnprofiles/wireguard.go:21-148 | which error a rejected profile gets: size, line length, the first unacceptable line, a missing section, or the first broken rule, in that order |
| `WireGuardRules.ValidatorsDecide` | internal/vpnprofiles/wireguard.go:73-148 | the validators find no fault if and only if every rule holds, and otherwise report the first broken one |
| `WireGuardRules.SplitCsvItems` | internal/vpnprofiles/wireguard.go:150-159 | splitting yields exactly the non-empty trimmed stretches between commas |
| `WireGuardRules.TrimBracketsExact` | internal/vpnprofiles/wireguard.go:100 | trimming a host takes off all brackets at its ends and nothing else |
| `WireGuardRules.CanonicalLayout` | internal/vpnprofiles/wireguard.go:170-192 | the canonical text line by line: fixed order, one directive a line, empty ones left out |
| `Text.TrimSpaceExact` | internal/vpnprofiles/wireguard.go:42-58 | trimming takes off white space at both ends, all of it, and nothing else |
| `Text.LowerOfAscii` | internal/vpnprofiles/wireguard.go:47-58 | folding an ASCII text maps A to Z to a to z and changes nothing else |
| `WireGuardRoundTrip.CanonicalRebuilds` | internal/vpnprofiles/wireguard.go:38-66 | for every text the line loop accepts, running it over the canonical text rebuilds exactly the same section maps |
| `WireGuardRoundTrip.CanonicalBound` | internal/vpnprofiles/wireguard.go:170-192 | the canonical text is at most 20 bytes longer than the accepted input |
| `WireGuardRoundTrip.BoundIsAttained` | internal/vpnprofiles/wireguard.go:170-192 | every profile with all nine directives has a spelling for which the difference is exactly 20 bytes |
| `WireGuardRoundTrip.ReparseCanonical` | internal/vpnprofiles/wireguard.go:21-114 | re-parsing the canonical text gives the same canonical text and endpoint if it fits the limit, and the size error if it does not |
| `WireGuardRoundTrip.ShortProfilesAreStable` | internal/vpnprofiles/wireguard.go:21-114 | every accepted input of at most 65516 bytes is stable under re-parsing |
| `WireGuardRoundTrip.SizeLimitRejectsCanonical` | internal/vpnprofiles/wireguard.go:22-24 | a whole family of accepted profiles whose canonical text is refused for size |
| `WireGuardRoundTrip.SomeAcceptedProfileIsUnstable` | internal/vpnprofiles/wireguard.go:22-24 | one concrete profile of that family, from a real key, addresses and port, for all decoders that read those values as Go does |
| `WireGuardRoundTrip.AcceptedProfileKeepsDefaultRoute` | internal/vpnprofiles/wireguard.go:161-168 | the canonical text of an accepted profile, read again, still routes everything and still has a valid private key |
| `WireGuardRoundTrip.NameFolds` | internal/vpnprofiles/wireguard.go:181-192 | each name the printer writes folds to the one the parser's table knows |
| `ProfileStore.OpenSealed` | internal/vpnprofiles/store.go:127-193 | a sealed profile opens to its text under its own key; any other key is refused, and told it is a different key whenever the fingerprints differ |
| `ProfileStore.OpenSealedV1` | internal/vpnprofiles/store.go:151-193 | files of the older layout open under their own key and no other |
| `ProfileStore.ValidRefShape` | internal/vpnprofiles/store.go:334-337 | a valid reference is 32 bytes without separators and the suffix |
| `ProfileStore.Directory.Save` | internal/vpnprofiles/store.go:72-97 | the outcome and the whole directory after a save: rejected profiles, a missing key and missing randomness change nothing; a failed write may leave part of the file |
| `ProfileStore.Directory.Load` | internal/vpnprofiles/store.go:99-119 | invalid reference, no key, missing file, read error, undecryptable file, rejected text, or exactly the decrypted text, in that order |
| `ProfileStore.SavedProfileLoads` | internal/vpnprofiles/store.go:72-119 | what saving seals is loaded back under the same key as exactly the canonical text, whatever else is stored |
| `ProfileStore.Directory.StoreProfile` | internal/httpapi/settings.go:297-305 | whatever the controller manages to store loads back as exactly the canonical text and the worker's own parse accepts it; an accepted upload is refused only for want of a key, randomness or disk, or with the size error if and only if the canonical text is too long; no other file changes |
| `KeyRotation.Rotate` | internal/vpnprofiles/store.go:265-332 | however it ends, every profile keeps its text under one of the two keys; on success all are under the new key, none is staged, rotated is the number of profiles that were under the old key, already new the number that were not, and total their sum; after a failed rename rotated is how many left the old key; a failure while staging counts the profiles reached, changes none, and once cleaned up leaves the directory exactly as it was, except for the copy whose own write failed; without faults it succeeds if and only if every profile is readable under one of the keys |
| `KeyRotation.RotationResumes` | internal/vpnprofiles/store.go:248-332 | over any series of interrupted attempts from a directory with nothing staged, no profile is ever lost or altered, readable ones stay readable, and after any successful attempt all are under the new key with their original texts and nothing staged |
| `KeyRotation.AttemptsCompose` | internal/vpnprofiles/store.go:265-332 | an attempt after an interrupted one counts as one attempt from the start |
| `KeyRotation.SealedReads` | internal/vpnprofiles/store.go:127-193 | to a holder of both keys a re-sealed profile yields the same text, and it is under the new key |
| `KeyRotation.RenameKeeps` | internal/vpnprofiles/store.go:325-330 | each rename keeps every text, moves one profile to the new key and disturbs no other staged copy |
| `KeyRotation.RenameTakesOne` | internal/vpnprofiles/store.go:325-330 | each rename takes exactly one profile off the old key |
| `KeyRotation.Stage` | internal/vpnprofiles/store.go:291-323 | staging touches no profile; completing it means every profile is staged or already under the new key, and without faults it completes if and only if all are readable |
| `KeyRotation.Abort` | internal/vpnprofiles/store.go:297-321 | a failure before the first rename leaves every profile byte for byte as it was and removes every staged copy; only where the write itself failed can that one copy remain |
| `KeyRotation.Cleanup` | internal/vpnprofiles/store.go:285-289 | removing staged copies touches nothing else, even when a removal fails |
| `KeyRotation.Commit` | internal/vpnprofiles/store.go:325-331 | stopped after any rename, every text is preserved and the directory is resumable; the count is the number of profiles that left the old key |
| `RotationAfterSaves.SavesStayRotatable` | internal/vpnprofiles/store.go:72-97 | after any series of saves into an empty directory, each ending in any way, every profile is readable, and so a rotation without faults succeeds, if and only if no save was cut short |
| `RotationAfterSaves.OneMoreSave` | internal/vpnprofiles/store.go:94-96 | one save into any directory keeps it rotatable exactly if it is not cut short |
| `RotationAfterSaves.UnreadableBlocks` | internal/vpnprofiles/store.go:302-311 | from a directory with one unreadable profile no series of attempts ever contains a success, and the profile stays unreadable |
| `RotationAfterSaves.SavedLoadsAfterRotation` | internal/vpnprofiles/store.go:72-119 | a completed save, then any series of attempts of which the last succeeded: the profile loads under the new key as exactly the saved text |
| `RotationAfterSaves.SaveDuringRotation` | internal/vpnprofiles/store.go:275-332 | a save that slips in after the listing stays under the old key although the rotation succeeds, and all stays readable with both keys |
| `Lifecycle.EventsFormOnePath` | internal/database/database.go:641-674 | in every run a workstation's committed events form one unbroken path from creating to its current state, each edge in the table or Reconcile's error-to-error loop, with nothing after deleted |
| `Lifecycle.ReadyOnlyBehindVpn` | internal/httpapi/workstations.go:245-289 | in every run each arrival of a VPN-required workstation at ready ends the consecutive states starting-vpn, waiting-for-vpn, starting-apps, ready, and was committed by a job whose own worker call had succeeded |
| `Lifecycle.EveryStateIsEarned` | internal/httpapi/workstations.go:351-489 | in every run each change was made by a handler or job entitled to it, and states that claim work was done follow a successful worker call of the same job |
| `Lifecycle.DeletedIsFinal` | internal/httpapi/workstations.go:491-530 | a deleted row never changes again, whatever stale jobs and reconciliations are still to come |
| `Lifecycle.RunKeepsInv` | internal/httpapi/workstations.go:245-530 | the invariant on rows, running code and reconciliations behind these results is kept by every step |
| `Lifecycle.RunExtends` | internal/database/database.go:741-764 | rows stay, keep their VPN requirement and only gain events |
| `Lifecycle.CreationReachesReady` | internal/httpapi/workstations.go:241-289 | from any system state, creating a workstation and running its job undisturbed ends in ready |
| `Lifecycle.RequestReachesGoal` | internal/httpapi/workstations.go:351-489 | from any system state whose row allows the request's first move, the handler and its job, undisturbed, reach the request's goal |
| `Lifecycle.FailedCallRecordsError` | internal/httpapi/workstations.go:259-264 | a job whose worker call fails, and which nobody overtook, leaves its workstation in error |
| `Lifecycle.CrashStopsEverything` | internal/httpapi/workstations.go:241 | after a crash no job and no reconciliation goes on, and the rows are as they were |
| `Lifecycle.JobWalks` | internal/workstations/state.go:26-42 | the table lets every job through from the state its handler leaves to its goal |
| `Lifecycle.OnlyWayIn` | internal/workstations/state.go:26-42 | ready is entered from starting-apps only, waiting-for-vpn from starting-vpn only |
| `Lifecycle.TableBothWays` | internal/workstations/state.go:26-42 | the transition table read column by column: from where each state may be entered |
| `Lifecycle.RequestsAdmitted` | internal/httpapi/workstations.go:351-390 | exactly which states admit each request |
| `Lifecycle.Database.SetWorkstationState` | internal/database/database.go:741-764 | the row and its event change together, and only if the row is still in the expected state |
| `Lifecycle.Database.Transition` | internal/httpapi/workstations.go:491-502 | refines the `Move` step of the transition system, and moves the caller's snapshot on success only |
| `Lifecycle.Database.Reconcile` | internal/httpapi/workstations.go:504-530 | undisturbed, it puts exactly those workstations into error, with one event, for which the worker listed nothing and which are not creating, pulling images, deleting or deleted; all others are untouched |
| `Lifecycle.ReconcileMarksLost` | internal/httpapi/workstations.go:513-525 | in any run, a reconciliation step changes a row if and only if its transaction goes through, the row is still in its recorded state, the worker listed nothing for it, and that state is active and settled |
| `Containers.StartKeepsClosed` | internal/dockerworker/service.go:857-868 | starting a container whose network runs keeps the running set dependency-closed |
| `Containers.StopKeepsClosed` | internal/dockerworker/service.go:857-868 | stopping a container nothing running depends on keeps it closed |
| `Containers.DeleteKeepsClosed` | internal/dockerworker/engine.go:672-684 | removing a container on which none depends keeps it closed |
| `Containers.CreateKeepsClosed` | internal/dockerworker/engine.go:135-192 | creating a stopped container whose network exists keeps it closed |
| `Containers.SortedLists` | internal/dockerworker/service.go:799-823 | sorting by rank keeps a complete listing complete and orders it |
| `Containers.NextMayRun` | internal/dockerworker/service.go:824-844 | in start order, once everything before it runs, the next container may run |
| `Containers.NextUnneeded` | internal/dockerworker/service.go:798-815 | in stop order, once everything before it has stopped, nothing running needs the next container |
| `Containers.NextRemovable` | internal/dockerworker/engine.go:677-684 | in delete order, once everything before it is gone, none depends on the next container |
| `Containers.Engine.ContainerAction` | internal/dockerworker/engine.go:585-613 | a missing container counts as success, an already started or stopped one as an error |
| `Containers.Engine.CreateContainer` | internal/dockerworker/engine.go:135-192 | creates a stopped container or reuses one whose labels match, and changes nothing else |
| `Containers.OneMoreCall` | internal/dockerworker/engine.go:585-613 | replaying a log with one more call applies that call, and keeps closure throughout if the result is closed |
| `Containers.StartAll` | internal/dockerworker/service.go:818-844 | every call is logged and the set was closed after each, cut short or not; the containers, the calls made and the result are exactly those of starting in order up to the first failure; success means everything runs; without faults it succeeds if and only if nothing ran |
| `Containers.StartedGatewaysAreHealthy` | internal/dockerworker/service.go:832-842 | a start that succeeds found every gateway healthy after starting it |
| `Containers.StopAll` | internal/dockerworker/service.go:818-828 | closed after every call; the calls made are exactly the stops in order, up to the first failure; success means nothing runs; without faults it succeeds if and only if everything ran |
| `Containers.StopRunning` | internal/dockerworker/service.go:798-817 | closed after every call; on success exactly the state of each was asked and those running were stopped, and nothing runs; without faults it always succeeds |
| `Containers.RunAction` | internal/dockerworker/service.go:791-844 | start, stop and restart keep the set closed after every logged engine call and the same containers; success means exactly that all run, or none, and that exactly the calls of the command were made; without faults they succeed exactly from the states stated above, and start or stop leave a workstation already so as it is |
| `Containers.RestartStopsThenStarts` | internal/dockerworker/service.go:798-844 | the calls of a successful restart: first every running container is stopped and none started, then every one is started, in order |
| `Containers.DeleteAll` | internal/dockerworker/service.go:467-475 | closed after every call; what is left is unchanged; success leaves nothing that was to be replaced and made exactly one deletion for each of those |
| `Containers.RemoveWorkstation` | internal/dockerworker/engine.go:672-684 | closed after every call; what is left is unchanged; success leaves no container; without faults it succeeds |
| `Creation.RunOnce` | internal/dockerworker/service.go:696-714 | a one-shot container disturbs nothing that runs; on success it was created, started, waited for and removed, and is gone; without faults it leaves exactly what was there |
| `Creation.SeedWorkspace` | internal/dockerworker/service.go:646-678 | closed after every call; without faults it leaves exactly what was there less a left-over seed container |
| `Creation.CreateGateway` | internal/dockerworker/service.go:513-562 | success means the gateway was created and started, runs and was found healthy; without faults exactly the gateway is added |
| `Creation.CreateAppResources` | internal/dockerworker/service.go:563-629 | success means the app runs, was found healthy if it is probed, and nothing that ran was disturbed; without faults and with its names free exactly its sandbox and the app are added, running |
| `Creation.CreateResources` | internal/dockerworker/service.go:488-631 | closed after every call; success means the gateway and every app run and exactly the calls of a creation were made, in order; without faults an empty workstation ends up with exactly its gateway and a running sandbox and app per requested app |
| `Creation.RebuildResources` | internal/dockerworker/service.go:456-486 | closed after every call; success means exactly the deletions and then the calls of a creation were made; without faults and without left-over one-shot containers it ends exactly as a fresh creation does |
| `Creation.RebuildDeletesThenCreates` | internal/dockerworker/service.go:464-485 | the calls of a successful rebuild: every gateway, sandbox and app there was is deleted before each requested app is created and started anew |
| `Lives.Obey` | internal/dockerworker/service.go:791-849 | any one order, cut short anywhere, only adds to the log and leaves a state from which every other order can follow; without faults it takes a workstation without left-overs to exactly the state it is meant for, failing only where an action asks for what is already so |
| `Lives.RunOrders` | internal/dockerworker/service.go:456-868 | from an empty workstation, through any series of create, rebuild, start, stop, restart and delete, under any plan of failing calls: the containers are the replay of all calls made, and the running set was dependency-closed after every single one; without faults an orderly series ends in exactly the state its orders describe |
| `Lives.CutStartIsStuck` | internal/dockerworker/service.go:818-844 | from a provisioned and stopped workstation, a start cut short by one refused call leaves one that a faultless engine neither starts nor stops; a restart is accepted |
| `Lives.OverlapBreaksClosure` | internal/dockerworker/engine.go:672-684 | orders that overlap are outside these results: a removal with a listing made during a creation deletes the gateway from under a running sandbox |
| `DockerLogs.Decode` | internal/dockerworker/engine.go:568-583 | the batch loop terminates on remaining length and computes the recursive frame walk |
| `DockerLogs.ContainerLogs` | internal/dockerworker/engine.go:509-513 | decodes exactly the first 2 MiB of the response |
| `DockerLogs.CopyFrames` | internal/dockerworker/engine.go:548-565 | the streaming loop writes exactly the frames' payloads, up to an oversized or cut frame; a failing writer gets exactly the beginning that fits, and its failure is reported |
| `DockerLogs.Copy` | internal/dockerworker/engine.go:531-566 | what is written and whether an error is returned, for every input and every point at which the writer fails |
| `DockerLogs.BatchVersusStream` | internal/dockerworker/engine.go:531-583 | the batch output is a prefix of the streaming output, which adds exactly what is there of a cut last payload, if and only if the batch walk meets no complete frame over 16 MiB |
| `DockerLogs.ShortInputsAgree` | internal/dockerworker/engine.go:531-583 | for every input of at most 16 MiB it is a prefix, and equal when no payload is cut short |
| `DockerLogs.ShownIsPrefixOfCaptured` | internal/dockerworker/engine.go:509-528 | for every response of any length, decoding its first bytes, up to any limit from 8 bytes to 16 MiB, gives a prefix of what streaming all of it writes |
| `DockerLogs.LargeFrameDiffers` | internal/dockerworker/engine.go:549-552 | as functions: one frame of 16 MiB and a byte is decoded by the batch form and refused by the streaming form |
| `DockerLogs.DemultiplexingUndoesFraming` | internal/dockerworker/engine.go:531-583 | for every list of stdout and stderr frames of at most 16 MiB both recover exactly the concatenated payloads |
| `DockerLogs.UnframedIsUnchanged` | internal/dockerworker/engine.go:540-572 | a text that does not start with a frame header comes out of both as it is |
| `RotatingLog.LogWriter.Rotate` | internal/dockerworker/logs.go:228-237 | whichever operation fails, what is left of both files, and the previous file followed by the current one stays a suffix of everything written; it succeeds if and only if the handle is open and closing, renaming and reopening work, and closes the handle otherwise |
| `RotatingLog.LogWriter.Write` | internal/dockerworker/logs.go:217-226 | appends, or first rotates exactly when the limit would be passed; the tracked size is the file's length; the file stays within the limit if it and the write did; the handle stays open exactly unless a rotation is due and fails, and through a closed one nothing is written and neither file changes; without faults at least a whole file's worth is retained |
| `RotatingLog.LogWriter.WriteAll` | internal/dockerworker/logs.go:94-131 | the same over any series of writes and faults: without faults the stream is exactly the concatenated writes, and after a failed rotation no later write changes anything |
| `RotatingLog.SuffixGrows` | internal/dockerworker/logs.go:217-226 | appending to the current file and to the stream keeps the suffix |
| `Approvals.OnlyPersistedApprovalsAllow` | internal/dockerworker/approvals.go:23-114 | in every run of approvals, failed persists, crashes and restarts, memory holds only records that are on disk, and only a specification identical to one whose approval reached disk is allowed |
| `Approvals.RunKeepsInv` | internal/dockerworker/approvals.go:44-114 | memory is a part of the disk, the disk holds at most 10000 records, and each was made for a specification that reached it |
| `Approvals.FailedReapprovalSuspends` | internal/dockerworker/approvals.go:59-63 | from every reachable store, a failed re-approval takes the earlier approval out of memory while the file still has it |
| `Approvals.ApprovalSurvives` | internal/dockerworker/approvals.go:56-64 | exactly which steps leave an allowed specification allowed: all but a different or failing approval under the same key |
| `Approvals.StandsThroughout` | internal/dockerworker/approvals.go:44-78 | over every run an approval stands at every point if and only if every step keeps it, a condition on the steps alone |
| `Approvals.Standing` | internal/dockerworker/approvals.go:44-114 | what each step does to one specification, on disk and in memory, whatever the other records |
| `Approvals.KeysApart` | internal/dockerworker/approvals.go:116-118 | keys are equal exactly when id, version and manifest are, if the first two contain no NUL |
| `Approvals.OthersUndisturbed` | internal/dockerworker/approvals.go:44-78 | approving one app, however it ends, leaves any other id, version or manifest as it stands in memory |
| `Approvals.SuspensionEnds` | internal/dockerworker/approvals.go:23-65 | over every run with other keys a suspended approval is allowed again if and only if the file was read back before it was next written, and off the disk if and only if it was written first |
| `Approvals.GoneForGood` | internal/dockerworker/approvals.go:59-63 | once in neither place, it never returns until an approval of the very same specification reaches the file |
| `Approvals.OtherApprovalErases` | internal/dockerworker/approvals.go:59-64 | from every reachable store: a failed re-approval, then an approval of another app, and the first is lost even after a restart |
| `Approvals.ApprovalStore.Approve` | internal/dockerworker/approvals.go:44-65 | refines the approve step of the run, and reports success exactly when there was room and replacing the file did not fail |
| `Approvals.ApprovalStore.Reload` | internal/dockerworker/approvals.go:23-42 | refines the restart step: memory becomes what the file holds |
| `Approvals.ApprovalStore.Allowed` | internal/dockerworker/approvals.go:67-78 | decides exactly the predicate the run lemma speaks about |
| `AppStore.SamePackageSamePayload` | internal/appstore/catalog.go:382-435 | directories with equal integrity data hold the same payload, byte for byte |
| `AppStore.OnePackage` | internal/appstore/catalog.go:382-435 | a directory has at most one integrity description |
| `AppStore.PayloadHashIdentifies` | internal/appstore/catalog.go:422-434 | where no path contains a line break, equal payload hashes alone mean equal packages and equal payloads |
| `AppStore.SortFilesSorted` | internal/appstore/catalog.go:418 | the collected records end up strictly sorted by path |
| `AppStore.Collect` | internal/appstore/catalog.go:383-417 | the walk collects exactly the payload's records, unless a file is too large |
| `AppStore.Summarize` | internal/appstore/catalog.go:422-435 | the running hash input and size are those of the whole list; gives up if and only if the total is too large |
| `AppStore.InspectPayload` | internal/appstore/catalog.go:382-435 | returns a directory's one package description if and only if it is non-empty and within the limits, in whatever order the walk lists the files |
| `AppStore.Manager.MoveAside` | internal/appstore/manager.go:400-405 | one app's active and previous directories after clearing and renaming aside, however each ends; no other app's change |
| `AppStore.Manager.SwapIn` | internal/appstore/manager.go:406-410 | the same after renaming into place, or back, and tidying up |
| `AppStore.Manager.Activate` | internal/appstore/manager.go:390-411 | the app's active directory is exactly `ActiveAfter`, however the activation ends; other apps are untouched; success means the given directory is active and nothing is left aside |
| `AppStore.AtomicUnlessTorn` | internal/appstore/manager.go:390-411 | the active directory is the old or the new one if and only if the activation is not torn: stopped between the renames, unable to put back, or putting back one that was not active |
| `AppStore.TornWithoutCrash` | internal/appstore/manager.go:390-411 | without a crash, and if putting back works, it is torn only if nothing was active and a left-over could not be removed |
| `AppStore.FailedClearActivatesPart` | internal/appstore/manager.go:402-409 | what is left of a left-over that could not be removed becomes the active directory when the swap fails |
| `AppStore.OldNewOrNothing` | internal/appstore/manager.go:390-411 | otherwise the active directory is the old one, the new one or none |
| `AppStore.MovedThenSwapped` | internal/appstore/manager.go:397-411 | the two halves together leave exactly what `ActiveAfter` says |
| `AppStore.Manager.StoreVersion` | internal/appstore/manager.go:318-333 | stored directories never change; succeeds if and only if what is there can be looked at and the stored payload equals the download, or the copy completed |
| `AppStore.Manager.WriteState` | internal/appstore/manager.go:467-473 | one record changes, or none |
| `AppStore.Manager.MakeCurrent` | internal/appstore/manager.go:334-355 | on success the active directory is the recorded current version; a first install has no previous version, another version makes the former one previous, and the same version keeps it; an error leaves the record as it was; other apps' active directories are untouched and this one's is exactly what activating leaves |
| `AppStore.Manager.Install` | internal/appstore/manager.go:296-355 | keeps the invariant (current and previous differ, each names a stored, verified payload that never changes) however it ends; other apps' records and active directories are untouched; what success means; without faults it succeeds if and only if the bundle's description is the download's and an already stored version has the same payload |
| `AppStore.Manager.Rollback` | internal/appstore/manager.go:357-388 | keeps the invariant however it ends; other apps are untouched; success swaps the pair and activates it; without faults it succeeds if and only if there is an accepted previous version |
| `AppStore.Manager.RollbackTwice` | internal/appstore/manager.go:357-388 | two rollbacks restore the version pair and the active directory, and without faults both succeed whenever there is a previous version |
| `AppStore.Manager.UpgradeAndUndo` | internal/appstore/manager.go:296-388 | installing one version, then another, then rolling back succeeds when nothing fails, and the first version is current and active again |
| `AppStore.Manager.RunAll` | internal/appstore/manager.go:296-411 | over any series of installs and rollbacks, each ending in any way, the invariant holds and no stored directory changes; every active directory is a whole stored version, if left-overs can be removed; apps not named keep theirs |
| `Timestamps.StoredOrder` | internal/database/database.go:863-864 | for instants in years 0 to 9999 whose whole seconds differ, byte order of the stored texts is time order |
| `Timestamps.SameSecondOrder` | internal/database/database.go:863-864 | within one second, byte order is time order if and only if the earlier fraction's text is not a prefix of the later one's |
| `Timestamps.FractionPrefix` | internal/database/database.go:863-864 | one fraction's text is a prefix of a later one's exactly within one unit of its last shown digit |
| `Timestamps.SecondsOrder` | internal/database/database.go:863-864 | the text up to the fraction orders exactly as the count of seconds, calendar and leap years included |
| `Timestamps.YearsClosed` | internal/database/database.go:863-864 | the count of days agrees with the closed form of the Gregorian calendar |
| `Timestamps.MonthsClosed` | internal/database/database.go:863-864 | the days before each month, with the leap day from March on |
| `Timestamps.ExpiryIsSharpToOneSecond` | internal/database/database.go:358-364 | never accepted a full second or more after expiry, never refused for expiry a full second or more before it |
| `Timestamps.ExpiryExactly` | internal/database/database.go:358-364 | exactly when an instant counts as unexpired: across seconds by the seconds; within the second, early instants unless less than a unit of their own last shown digit early, and late ones exactly while less than a unit of the expiry's last shown digit late |
| `Timestamps.WholeSecondExpiryOverruns` | internal/database/database.go:558-563 | the longest overrun: an expiry on a whole second is honoured for the rest of that second |
| `Shares.UsesCountRedemptions` | internal/database/database.go:551-579 | in every run the use count is exactly the number of successful redemptions and never passes the cap |
| `Shares.GrantedExactly` | internal/database/database.go:551-600 | after any run, exactly what is granted: nothing once revoked for its workstation; a redemption while unexpired and under the cap; a validation only for its own workstation |
| `Shares.NothingAfterRevocation` | internal/database/database.go:588-600 | once a revocation has succeeded, nothing is granted again |
| `Shares.NothingAfterExpiry` | internal/database/database.go:581-586 | a full second or more after expiry nothing is granted, whatever came before |
| `Shares.Row.RedeemShare` | internal/database/database.go:551-579 | counts one use exactly when granted, and returns the updated share |
| `Shares.Row.ValidateShare` | internal/database/database.go:581-586 | grants without counting |
| `Shares.Row.RevokeShare` | internal/database/database.go:588-600 | revokes exactly once |
| `LoginGuard.BackOffDelays` | internal/httpapi/auth.go:86-116 | in every sequential run, for an address with no success and no gap over 24 hours, at least 15(n-5)(n-4) seconds pass between the recorded 5th and n-th failures, whatever other addresses do |
| `LoginGuard.BlockedExactlySoLong` | internal/httpapi/auth.go:191-217 | in every such run the first four failures never block; the n-th blocks for at least 30(n-4) seconds from when it was recorded, and the address is free once that long has passed since the end of the last request |
| `LoginGuard.SuccessForgets` | internal/httpapi/auth.go:204-207 | after a success the address is not blocked and its next failure counts as its first |
| `LoginGuard.SweepForgetsOldOnly` | internal/httpapi/auth.go:218-222 | a recorded failure forgets exactly the other addresses last seen more than a day before |
| `LoginGuard.RunReflects` | internal/httpapi/auth.go:191-223 | the swept map always holds the address's exact failure count, last failure and a long enough block |
| `LoginGuard.SpacingAddsUp` | internal/httpapi/auth.go:213-217 | the per-failure delays add up to the closed form |
| `LoginGuard.Guard.LoginBlocked` | internal/httpapi/auth.go:191-199 | positive exactly while the block lasts, and then the time left |
| `LoginGuard.Guard.RecordLogin` | internal/httpapi/auth.go:201-223 | the update and the eviction loop leave exactly the recorded and swept map |
| `LoginGuard.Guard.HandleLogin` | internal/httpapi/auth.go:86-116 | a blocked address is turned away before anything is recorded |
| `Password.XorInto` | internal/auth/password.go:85-87 | the in-place loop computes the bytewise exclusive or |
| `Password.DeriveBlock` | internal/auth/password.go:76-88 | the inner loops compute F(P, S, c, i) of section 5.2 of RFC 8018 |
| `Password.Derive` | internal/auth/password.go:73-92 | for every password, salt, count and length the result is the PBKDF2 output of section 5.2 of RFC 8018 |
| `Password.IntIsBlockIndex` | internal/auth/password.go:78 | for every block index below 2^32 the four octets encode it |
| `Password.HashPassword` | internal/auth/password.go:22-34 | short passwords and missing randomness give no hash; otherwise the encoded text of salt and derived key |
| `Password.VerifyPassword` | internal/auth/password.go:36-55 | accepts exactly a well-formed hash, within the iteration limits, whose key the password derives |
| `Password.ReadableHash` | internal/auth/password.go:36-52 | a stored text is readable if and only if it spells a count from 100000 to 2000000, a salt of at least 16 bytes and a key of 32 |
| `Password.DecimalReadsBack` | internal/auth/password.go:41 | the decimal text of every number reads back as that number |
| `Password.HashVerifies` | internal/auth/password.go:22-55 | a hash accepts its own password, and another one if and only if it derives the same key |
| `Theme.ChosenTextIsLegible` | internal/theme/theme.go:123-147 | for every accent the chosen text colour is the better of the two and has contrast at least 4.45 |
| `Theme.OneContrastIsLarge` | internal/theme/theme.go:123-135 | for every luminance in [0, 1] one of the two candidate contrasts is at least 4.45 |
| `Theme.NearBlackLuminance` | internal/theme/theme.go:123-147 | a rational upper bound on the near-black luminance, from y^5 = x^12 |
| `Theme.ChannelRange` | internal/theme/theme.go:141-147 | linear channel values lie in [0, 1], and 255 gives 1 |

## Left out

- The library code behind AES-GCM, SHA-256, HMAC, base64, CIDR, IP, host/port and integer parsing: parameters.
- Creating the key file on first use and the race between two processes doing so (internal/vpnprofiles/store.go:197-239); that no key can be had is an input.
- Sorting and scanning library calls are functions (insertion sort, a line walk), not Go's algorithms; only their result matters.
- The scanner's buffering is kept to what a caller can see: a first line that fills the 64 KiB buffer is an error.
- Section maps are keyed by an enumeration of the nine directives instead of their folded names; `NameFolds` and `FindKey` connect the two.
- Volumes, networks, file copies and image pulls in the worker: they change no container; their failure has the effect of the next call being refused or of a failed health wait.
- The dependency-closed state includes that the networks depended on exist, not only that they run; it holds of an empty workstation and is kept by every order, so `RunOrders` needs no starting assumption.
- RunOrders: what a faultless engine achieves is stated for series that provision a workstation only while it is absent and with distinct apps; other series are covered by the closure result alone.
- Orders that overlap: the worker has no lock per workstation, and the table allows a deletion while a provision call still runs; `OverlapBreaksClosure` shows what then goes wrong. The container results take one order at a time.
- Saves that overlap a rotation: each is taken as a whole; `SaveDuringRotation` shows what an overlap leaves.
- Containers that stop or vanish by themselves, and listings that are not complete: a container disappearing behind the worker's back can break any dependency.
- RebuildResources: the exact result is stated for workstations without left-over one-shot containers; a left-over one is reused by name.
- Liveness of the lifecycle under interference: a crash in stopping or deleting can leave no legal user action.
- One job owning a workstation is not claimed: after a failed deletion an update can revive the state an older job expects.
- Exact preservation of the egress mode: the insert omits the column, so only "WireGuard or not" survives.
- Copy: a reader that fails other than by ending is not modelled; a writer that fails is, and once it has failed it takes nothing more.
- CopyFrames: the same.
- Concurrent logins: checking and recording are separate critical sections, so the delay bound is for sequential requests.
- Share transactions that fail to commit: they change nothing and grant nothing.
- Floating-point rounding in the contrast arithmetic: exact reals are used.
- Timestamps outside years 0 to 9999, where the text has another width.
- The incoming directory of an activation that stopped part-way: it stays behind under a hidden name and is never active.
- Symbolic links and other non-regular files in a payload, which are refused outright (internal/appstore/catalog.go:395-403).
- Fetching, signature and manifest validation of app bundles, and the worker's approval call inside an installation: one accepted-or-not parameter.
- HTTP routing, HTML, cookies, proxying, command-line tools, grants, templates, hostname matching: plumbing and easy branch checks.
