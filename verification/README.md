# A model of ssh-control

ssh-control keeps a list of SSH servers in an encrypted vault, opens the vault by password, by a
key held in the operating system's credential store, or by an authenticator code, and then connects,
runs scripts and moves files. This project models the parts where being wrong costs the user the
vault or a file, and proves what they guarantee. `dafny verify dfyconfig.toml` checks it.

**The vault file.** `Format` has the binary envelope with its printer and parser, exact in both
directions, and the nine-byte input on which the parser indexes out of bounds. `Keyslot` has the
slots that wrap one master key, over an ideal authenticated cipher: a sealed value opens with
exactly the key, nonce and additional data it was sealed with. `AtomicWrite` has the replacement of
the file over a file system that may lose power at any moment: directory changes survive up to some
point, and the contents of a file that was not synced may read back as anything.

**Who may open it, and when.** `Instances` interleaves any number of processes around one vault and
its advisory lock. `Security` says what each unlock, password change, mode change, creation and
conversion does to the vault, the credential-store entry and the screen, as the sequence of durable
states it passes through; `App` is the same as classes whose methods run the source's statements in
order, proved equal to `Security` including the sequence of writes, and to give the guarantees that
follow. `Outcomes` says what every operation comes to for the owner: the screen shown, when it
works, and what memory, vault and entry hold then. `VaultRuns` proves which password opens what
after any run with any failures and crashes, `Coherence` exactly when the credential entry and the
vault belong together, `CodeRuns` that codes are spent once and guesses are bounded, `CodeScreens`
how far several instances stretch that bound, and `CliUnlock` that the headless unlock loop ends.
`Totp` is the code check itself.

**Moving files.** `TransferPlan` and `Planner` have the stack-driven tree walk and the plan it
builds, `Transfer` the chunked copy under a temporary name and the run over a plan, with oracles for
faults, short reads and cancellation, and with logs of every request sent and every event delivered.

**Scripts and text.** `ScriptVars` has the placeholder expansion, `ScriptRunner` the conditional
chain of steps and both copies of the line splitter, `Utf8` the lossy reading of what a command
prints, `SshConfig` the import of an OpenSSH configuration.

**The server list.** `StableSort` and `ServerOrder` show that the two independently written
orderings agree, `MainMenu` that filter, order and selection stay together, `JumpChain` resolves
jump hosts.

`Text` and `Wrappers` are shared.

## Where the code does not do what one would expect

Each of these is stated as a lemma about the code as it is.

- A file of nine bytes with the right magic and version passes the length check and panics
  (`Format.DecodingPanicsExactlyOnNineBytes`).
- Re-enrolling a device during a password unlock is undone by the next save of anything, because the
  session keeps the slots it found (`Coherence.WhenTheNextSaveKeepsTheEntry`).
- A mode change of a vault that only the device opens overwrites its entry before the vault, and a
  failed one deletes the entry; at those points nothing opens the vault
  (`Coherence.ModeChangeLocksOutADeviceOnlyVault`).
- A crash between saving a converted code-only vault and deleting its secret file, or a deletion that
  fails, leaves a screen that can never succeed, on a vault that opens with its new password; each
  attempt on it also deletes this machine's credential entry (`Coherence.EveryPointOfTheConversion`,
  `Coherence.ConversionSucceedsExactlyWithTheOldSecret`).
- Creating a vault in a mode without a device does not remove an older credential entry
  (`Coherence.CreationCoherence`).
- A vault for password and code exists without the code until its second save
  (`VaultRuns.TheSecondFactorComesSecond`).
- The limit of five wrong codes needs a password slot to fall back to
  (`CodeRuns.WithoutAPasswordGuessesAreUnbounded`, `CodeRuns.DeviceOnlyVaultsCanAskForCodes`), and the
  code asked for after a password can be used again (`CodeRuns.TheSameCodePassesTwice`).
- Instances that already show the code screen each take one more code after the fifth failure, so
  with n of them up four and n wrong codes are refused, not five (`CodeScreens.TheBoundIsReached`).
- Output is shown chunk by chunk but matched as a whole, so a character that a chunk boundary cuts is
  shown as several replacement characters (`ScriptRunner.WhenTheLinesAreTheOutput`).
- A placeholder preceded by an odd number of braces is not replaced
  (`ScriptVars.ExpandingAroundAPlaceholder`).
- The comment at src/ssh_config.rs:135-137 says that an unreadable port leaves a field alone; that
  holds for a host, while among the defaults it erases the earlier value (`SshConfig.AnUnreadablePort`).
- An upload that overwrites removes the old file before the final rename, so a rename that fails
  leaves neither under the name (`Transfer.TheOldFileIsLostExactlyWhen`,
  `Transfer.AnOverwriteThatLosesTheFile`).

## Assumptions

Key derivation (Argon2 and HKDF) and the JSON encoding of configuration and device state are
injective and read back what was written; random values are parameters, and where a lemma needs them
new it says so. The clock, the credential store, the file systems, the server's replies and the
user's answers are parameters or oracles. Lowercasing is an arbitrary function.

The source syncs the directory of the vault only as best it can. `AtomicWrite.Lifetime` says what
holds when that fails, and `VaultRuns.LifetimesStayOpenable` lets power losses take any number of
completed vault writes back. Otherwise, in `VaultRuns`, `Coherence`, `CodeRuns` and `CodeScreens`, a
completed write of the vault, the entry or the secret file is on disk for good.

In `Transfer` a read before the end of a file returns at least one byte (`Honest`); without that the
contract only says that a prefix is published, since the source takes an empty reply for the end of
the file.

## Model

| member | source | states |
|---|---|---|
| `Format.EncodingRoundTrips` | src/config/format.rs:112-225 | decoding an encoding returns the same slots, nonce and ciphertext if and only if there are 1 to 4 slots, each passes the cost-parameter check, and the ciphertext is shorter than 2^32 bytes |
| `Format.AcceptedBytesReencode` | src/config/format.rs:127-225 | an accepted version 2 file is byte for byte the encoding of what it decodes to, so the parser ignores and normalises nothing |
| `Format.HeaderAadInjective` | src/config/format.rs:112-125 | the additional data of the body determines the slot list, for lists of every length, although the count byte wraps |
| `Format.SlotAadInjective` | src/config/format.rs:85-99 | the additional data of a slot determines kind, key derivation, cost parameters and salt |
| `Format.V1HeaderIsItsOwnAad` | src/config/format.rs:227-272 | the additional data rebuilt for an accepted version 1 file is its own first 38 bytes, and with the other fields it is the whole file |
| `Format.DecodingPanicsExactlyOnNineBytes` | src/config/format.rs:164-186 | decoding indexes out of bounds exactly on nine-byte inputs made of the magic and the version 2 byte, and on no other input |
| `Format.ReadEncodedSlots` | src/config/format.rs:179-214 | reading back printed slots gives the slots, or the cost-parameter error of the first one that is refused |
| `Format.EncodeReadSlots` | src/config/format.rs:189-214 | slots that were read print to the bytes they were read from |
| `Format.EncodeHeader` | src/config/format.rs:112-121 | the loop over slots prints exactly the header of the specification |
| `Format.Encode` | src/config/format.rs:127-136 | the buffer it builds is header, nonce, length and ciphertext |
| `Format.DecodeV2` | src/config/format.rs:179-225 | the offset-driven loop returns what the structural reading of the bytes returns, with the same error in the same case |
| `Format.DecodeV1` | src/config/format.rs:227-259 | the same for version 1 |
| `Format.DecodeAny` | src/config/format.rs:164-177 | dispatches on magic and version as the specification does |
| `Format.DecodedIsWhatLiesThere` | src/config/format.rs:164-259 | what is decoded stands in the bytes: eight letters, version, count, every slot field at its place in the order of the file, nonce, length and ciphertext, with 1 to 4 slots and costs within the limits |
| `Format.WhyBytesAreRefused` | src/config/format.rs:141-259 | each error is returned for exactly the bytes that have its reason, the first slot that is not fit deciding among slots |
| `AtomicWrite.WriteFileAtomic` | src/config/store.rs:326-360 | success leaves the new bytes readable and any error leaves the old; at every state in between a crash leaves whole old or whole new bytes, never a fragment, whatever temporary file was left over; once the directory is synced only the new bytes survive |
| `AtomicWrite.Lifetime` | src/config/store.rs:326-360 | over any sequence of writes, failures and power losses at any step the vault is one of the whole files written, and after a completed and synced write never an older one |
| `AtomicWrite.PowerLossIsSurvived` | src/config/store.rs:334-338 | whatever a power loss leaves, the writer can start again on it |
| `AtomicWrite.PrepareTemporary` | src/config/store.rs:334-344 | the temporary file holds the bytes and is on disk, or the old vault is untouched |
| `AtomicWrite.CreateTemporary` | src/config/store.rs:334-339 | creating or truncating the sibling does not touch what a crash leaves under the vault name |
| `AtomicWrite.FillTemporary` | src/config/store.rs:340-343 | writing the sibling does not touch what a crash leaves under the vault name |
| `AtomicWrite.Publish` | src/config/store.rs:346-349 | the rename adds exactly the new bytes to what a crash may leave |
| `AtomicWrite.RemoveTemporary` | src/config/store.rs:340-349 | clean-up after an error leaves the old vault readable and durable |
| `AtomicWrite.CreatingTheTemporary` | src/config/store.rs:334-338 | a leftover temporary file, whatever it is, is never the vault itself |
| `AtomicWrite.RenamingOntoTheVault` | src/config/store.rs:340-349 | renaming a synced file publishes it whole |
| `AtomicWrite.RenamingBeforeTheSyncTears` | src/config/store.rs:340-349 | without the sync before the rename a crash may leave any bytes at all under the vault name |
| `Instances.VaultLock.Acquire` | src/config/lock.rs:47-64 | success is the claiming step of the process in the interleaved model; but for an I/O error it comes exactly when that step is enabled, a held lock is not asked for again, and a refusal changes nothing |
| `Instances.Kernel.TakeExclusive` | src/config/lock.rs:78-87 | granted exactly while no descriptor carries the lock, one of the same process included; other errors are passed on |
| `Instances.Kernel.Close` | src/config/lock.rs:31-36 | closing the descriptor is the exit step of the process in the interleaved model |
| `Instances.StepKeepsOrder` | src/config/store.rs:183-240 | every step of any instance keeps: only the lock holder has the vault open, and what it has in memory extends what is on disk |
| `Instances.NoUpdateIsLost` | src/config/store.rs:183-298 | in every interleaving of claims, reads, edits, saves, auto-locks, exits and crashes of any number of instances at most one has the vault open and the saved history only grows |
| `Instances.OneHolder` | src/config/lock.rs:47-64 | two instances never both have the vault open |
| `Instances.FromAnExistingVault` | src/config/store.rs:183-298 | every run that starts from an existing vault and no instance satisfies the above, with any leftover temporary file |
| `Instances.ASavedEditStays` | src/config/store.rs:283-360 | a save puts exactly the memory of its instance on disk and every later state extends it |
| `Instances.ReadingFirstLosesAnUpdate` | src/config/store.rs:183-240 | were the file read before the claim, one instance could overwrite the saved edit of another: claim-before-read is what the guarantee rests on |
| `Keyslot.Replace` | src/config/keyslot.rs:84-88 | the in-place retain, push and sort give the list the following lemmas describe |
| `Keyslot.TiesAfterReplacing` | src/config/keyslot.rs:84-88 | the new slot is the only one of its kind and every other kind keeps its slots in order |
| `Keyslot.FindAfterReplacing` | src/config/keyslot.rs:74-88 | the new slot is found under its kind and nothing else is found differently |
| `Keyslot.MembersAfterReplacing` | src/config/keyslot.rs:84-88 | no slot of another kind appears or disappears, and the list is sorted by kind |
| `Keyslot.PasswordSlotOpens` | src/config/keyslot.rs:25-72 | a password slot opens under its own password and under no other |
| `Keyslot.DeviceSlotOpens` | src/config/keyslot.rs:92-109 | a device slot opens under its own device key and under no other |
| `Keyslot.EditedSlotDoesNotOpen` | src/config/keyslot.rs:43-72 | a slot with any descriptor field or nonce edited opens under no key |
| `Keyslot.WhatASlotSays` | src/config/keyslot.rs:22-60 | a slot names its kind and key derivation in its bytes, and its costs are ones the parser takes |
| `Keyslot.BodyIsBoundToItsSlots` | src/config/store.rs:283-321 | the body opens under exactly the master key and exactly the slot list it was sealed with |
| `Keyslot.TheHeaderBytesAreTheSlots` | src/config/format.rs:112-125 | for any injective writing of wrapped keys the header bytes determine the slot list, so binding to the list is binding to the bytes |
| `Totp.MatchingCodesAreEqual` | src/totp.rs:127-134 | the constant-time comparison is equality |
| `Totp.ScanFindsNewest` | src/totp.rs:87-106 | the scan of the window stops at the newest step showing the code |
| `Totp.CheckCodeMeaning` | src/totp.rs:87-106 | a code is accepted with the newest step of the three-step window (section 5.2 of RFC 6238) that shows it, if and only if that step is newer than the last accepted; it is a replay if and only if the newest such step is spent, and invalid if and only if no step shows it |
| `Totp.EnrollmentMeaning` | src/totp.rs:111-117 | the check without history passes if and only if some step of the window, but the first of the epoch, shows the code |
| `VaultRuns.PasswordOpens` | src/config/store.rs:224-242 | the password in force opens the file to the saved configuration, any other password is refused |
| `VaultRuns.DeviceOpens` | src/config/store.rs:196-222 | a device key opens the file exactly when its device slot was wrapped under it |
| `VaultRuns.OnlyThePasswordInForceLoads` | src/config/store.rs:224-242 | a load succeeds if and only if the password is the one in force, and yields the last configuration written |
| `VaultRuns.UpgradeMatches` | src/config/store.rs:265-281 | opening a version 1 file re-wraps it under a new master key without changing password or configuration |
| `VaultRuns.EveryEventKeeps` | src/app.rs:697-2107 | unlock by password or code, password change, mode change, edit, lock, quit, launch and a crash anywhere inside any of them keep: all slots wrap one master key, the password slot opens under the password in force, the body is sealed under that key and those slots, and the open session matches the disk; a completed vault write is taken to be on disk |
| `VaultRuns.EventsAreGuarded` | src/app.rs:697-2107 | the same for a caller, whatever the vault promises before the event: the world afterwards and every durable state on the way are in order |
| `VaultRuns.EveryPointMatches` | src/app.rs:697-2107 | between any two durable steps the vault file is the old one under the old password or the new one under the new |
| `VaultRuns.EveryRunStaysOpenable` | src/app.rs:697-2107 | the invariant over every run of events, failures and crashes |
| `VaultRuns.EveryRunOpensWithThePasswordInForce` | src/app.rs:848-872 | after every run the password in force, and no earlier one, loads exactly the last configuration that took effect; a device key loads the same one if and only if the device slot was wrapped under it |
| `VaultRuns.LifetimesStayOpenable` | src/config/store.rs:326-360 | the same when power losses take completed vault writes back: the vault opens with exactly the password in force when the file it went back to was written |
| `VaultRuns.CreationMatches` | src/app.rs:697-758 | a vault that was just created satisfies the invariant |
| `VaultRuns.CreationNeverLeavesAFragment` | src/app.rs:697-758 | at every crash point and after every error of a creation the file is the one from before, or it opens with the chosen password and with nothing else |
| `VaultRuns.TheSecondFactorComesSecond` | src/app.rs:727-745 | exactly when a vault meant for password and code is left opening by password alone: the process died between the two saves, or the second one failed |
| `VaultRuns.ModeChangeNeverLocksOut` | src/app.rs:2018-2107 | through a mode change, for every outcome and crash point, a vault with a password slot opens with the old password while the old file stands and with the one then in force afterwards |
| `Outcomes.ScreenOfAPasswordVault` | src/app.rs:331-421 | the screen of a vault with a password, case by case: plain password screen, not enrolled, password due, code screen, held elsewhere, open at once, or key no longer fitting |
| `Outcomes.ThePasswordIsAskedFor` | src/app.rs:364-421 | its owner is never turned away: the password screen comes up if and only if there is no device slot, no entry to be read, five codes have failed, thirty days have passed, or the entry does not fit; the code screen exactly for a code otherwise |
| `Outcomes.ScreenOfADeviceVault` | src/app.rs:364-421 | the screen of a vault that only a device opens, which never asks for a password |
| `Outcomes.ScreenWithoutAVault` | src/app.rs:331-353 | conversion, setup, or the password screen with the error for a file that cannot be read |
| `Outcomes.EveryRunOffersAWayIn` | src/app.rs:331-421 | after any run a launch of a vault with a password ends in the vault, at its code screen or at its password screen, where the password in force opens it |
| `Outcomes.AWrongPasswordChangesNothing` | src/app.rs:848-897 | nothing is written for a password that is not taken, and the screen says why; only a held lock is not worth asking again |
| `Outcomes.ThePasswordInForceOpens` | src/app.rs:848-897 | the password in force opens the vault with its configuration, on the code prompt exactly if it has a secret |
| `Outcomes.WhatAPasswordStores` | src/app.rs:899-932 | an enrolled machine gets its failures forgotten and its stamp renewed; another is enrolled with the code of the vault, under a slot its entry fits, or left without |
| `Outcomes.ANewerVaultIsLeftAlone` | src/app.rs:848-897 | a vault of a newer schema is neither opened nor written |
| `Outcomes.WhatACodeComesTo` | src/app.rs:765-820 | for accepted, replayed and wrong codes: what the entry holds afterwards, and which screen follows |
| `Outcomes.WhatAModeChangeStores` | src/app.rs:2018-2107 | exactly when it works, and then: the secret of the new mode in memory and vault, the rest of the configuration as it was, the slots of the mode, and its entry with the secret only where the code stands alone; otherwise memory and vault are as they were |
| `Outcomes.TheCodeSetUpIsAskedFor` | src/app.rs:2036-2044 | after a change to password and code the vault locks, takes the password in force, and then asks for a code of exactly the secret set up |
| `Outcomes.WhatAPasswordChangeStores` | src/app.rs:1917-1958 | the password changes if and only if the old one was typed right and the vault can be written; configuration, device slot and entry stay |
| `Outcomes.WhatAnEditStores` | src/app.rs:1752-1799 | an edit is in memory and vault alike, or in memory alone, or taken back |
| `Outcomes.WhatACreationStores` | src/app.rs:697-758 | exactly when a creation works, what error it shows otherwise, and what configuration, slots and entry it stores |
| `Outcomes.WhatAConversionStores` | src/app.rs:947-998 | a converted vault has its old secret as code, its configuration otherwise, and the new password |
| `Outcomes.AFailedConversionSaysWhy` | src/app.rs:947-998 | a conversion that fails stays on its screen and says which of the four reasons it was |
| `Coherence.ModeChangeLocksOutADeviceOnlyVault` | src/app.rs:2018-2107 | a vault without a password opens with nothing exactly at the points of a change into a device-backed mode after the entry write and without the new vault on disk, or after a deletion that worked where that write had not; other modes never lock it out |
| `Coherence.ModeChangeCoherence` | src/app.rs:2018-2107 | exactly when the credential entry is absent or unwraps the device slot on disk after a mode change, for all modes and outcomes |
| `Coherence.ModeChangeStaysCoherent` | src/app.rs:2018-2107 | with a working delete a mode change that starts coherent ends coherent, whatever else fails |
| `Coherence.CreationCoherence` | src/app.rs:697-758 | exactly when creation ends coherent; a mode without a device leaves an older entry behind |
| `Coherence.WhenTheNextSaveKeepsTheEntry` | src/app.rs:848-932 | exactly when a password unlock followed by a successful save leaves entry and device slot fitting: unless the unlock had enrolled this machine anew |
| `Coherence.ReenrolmentIsLostByTheNextSave` | src/app.rs:899-932 | after a re-enrolment on unlock entry and slot fit, and after the next successful save they do not |
| `Coherence.ConversionSucceedsExactlyWithTheOldSecret` | src/app.rs:947-998 | converting a code-only vault succeeds if and only if the secret file still is the vault password and every write works; a failed attempt deletes the credential entry, and where the secret no longer is the password it changes nothing else and every launch comes back to it |
| `Coherence.EveryPointOfTheConversion` | src/app.rs:947-998 | at every point, for every outcome: exactly the old secret or exactly the new password opens the vault, and a new attempt is hopeless if and only if the secret file is still there and no longer opens it |
| `Coherence.ConversionCanBeInterrupted` | src/app.rs:947-998 | whenever the new vault is saved, a crash before the secret file is deleted, or a deletion that fails, leaves that dead end |
| `Coherence.StuckExactlyWhen` | src/app.rs:947-998 | the dead end in terms of the crash point: the conversion works, the new password differs from the secret, and the process stops between save and deletion or the deletion fails |
| `Coherence.SecretOutlivesTheOldVault` | src/app.rs:947-998 | the secret file is gone only where the new password opens the vault |
| `CodeRuns.ScreensRespectTheLimit` | src/app.rs:331-421 | a launch offers the code screen only while fewer than five codes have failed |
| `CodeRuns.CodeKeepsLog` | src/app.rs:765-820 | an accepted code is newer than all before it and resets the count; a refused one is counted before it is answered and the fifth takes the screen away |
| `CodeRuns.PasswordKeepsLog` | src/app.rs:848-932 | a password unlock resets the count and never lowers the replay step within an enrolment |
| `CodeRuns.EveryEventKeepsLog` | src/app.rs:331-2107 | every event and every crash keeps the history of accepted and refused codes in step with the entry |
| `CodeRuns.CodesAreSpentAndGuessesAreBounded` | src/app.rs:364-820 | over every run of one instance with working entry writes, on any clock, accepted steps strictly increase within one enrolment and at most five codes are refused between resets, for a vault with a password slot |
| `CodeScreens.RefusalsAreBoundedByTheScreens` | src/app.rs:765-820 | over every interleaving of any number of instances, codes, clocks, passwords and restarts, at most four codes and one for each code screen up at once are refused until one gets past its screen |
| `CodeScreens.RefusalsFromTheStart` | src/app.rs:364-421 | in particular from no instance running |
| `CodeScreens.TheBoundIsReached` | src/app.rs:765-820 | the bound is exact: with n code screens up, four and n wrong codes are refused |
| `CodeRuns.EventsGuardCodes` | src/app.rs:331-2107 | the same per event for a caller, whatever was typed before |
| `CodeRuns.SecondFactorMeaning` | src/app.rs:2109-2124 | the code after a password opens the way if and only if a step of the window shows it; nothing is recorded of it |
| `CodeRuns.TheSameCodePassesTwice` | src/app.rs:2109-2124 | locked and unlocked again by password, the prompt accepts the same code again while the clock still shows it |
| `CodeRuns.RefusalsDoNotAdvanceReplay` | src/app.rs:765-820 | a refused code changes nothing in the entry but the failure counter |
| `CodeRuns.WithoutAPasswordGuessesAreUnbounded` | src/app.rs:364-421 | without a password slot any number of codes the check refuses, at any clock readings, can be typed, by restarting |
| `CodeRuns.DeviceOnlyVaultsCanAskForCodes` | src/app.rs:2050-2056 | such a vault comes about: created to open without a prompt, changed to the daily code with a password, and interrupted after the entry was written |
| `App.ConfigStore.Load` | src/config/store.rs:224-242 | equals the specification, including the upgrade of an old file, of which `VaultRuns.OnlyThePasswordInForceLoads` says that it succeeds exactly with the password in force |
| `App.ConfigStore.LoadWithDevice` | src/config/store.rs:196-222 | equals the specification, of which `VaultRuns.DeviceOpens` says that it succeeds exactly when the device slot wraps under the key |
| `App.App.ResolveInitialState` | src/app.rs:331-356 | the screen a launch or a lock ends on; nothing is written, a vault that opens at once is in order, and no code screen is shown beyond the limit, and an owner with a password gets the screen of `Outcomes.ScreenOfAPasswordVault` |
| `App.App.TryUnlock` | src/app.rs:848-872 | the world and the durable writes of a password unlock; all of them, and the session, in order for whatever the vault promised, and the history of codes kept |
| `App.App.TryTotpDailyUnlock` | src/app.rs:765-820 | the world and the durable writes of a code unlock, with the same guarantees |
| `App.App.VerifyTotpPrompt` | src/app.rs:2109-2124 | the prompt is passed if and only if a step of the window shows the code, spent or not; nothing durable changes |
| `App.App.ChangeMasterPassword` | src/app.rs:1917-1958 | the old password opens the vault until the new file stands and the new one from then on, for every outcome |
| `App.App.ChangeSecurityMode` | src/app.rs:2018-2107 | through every durable write the vault opens as promised; with a working delete entry and vault stay together, and it stores what `Outcomes.WhatAModeChangeStores` says |
| `App.App.CreateVault` | src/app.rs:697-758 | a success leaves vault and session in order; the file on disk after each write; entry and vault together in a device-backed mode with a working delete, and it stores what `Outcomes.WhatACreationStores` says |
| `App.App.MigrateTotpOnlyVault` | src/app.rs:947-998 | the conversion passes only through states that open with the old secret or with the new password |
| `App.App.EditConfig` | src/app.rs:1752-1799 | an edit is saved under the session slots and leaves the vault in order, whether or not the save works |
| `CliUnlock.AnAnswerMovesOnOrFails` | src/cli/unlock.rs:115-204 | an answer lowers the rank daily code, password, second factor, or stays with its error showing |
| `CliUnlock.Type` | src/cli/unlock.rs:140-204 | the same for the running application |
| `CliUnlock.CodesAreTrimmed` | src/cli/unlock.rs:119-171 | a code may be typed with white space around it, a password is taken as it is |
| `CliUnlock.Run` | src/cli/unlock.rs:115-204 | at most five prompts from every state and for every sequence of answers; success if and only if the vault is open past any second factor; a vault held elsewhere is refused after one prompt; a mistake is asked again until the third or one that asking cannot help, whose notice is the error; every other error names the screen it ended on |
| `TransferPlan.WalkIsTheListing` | src/ssh/transfer.rs:152-261 | the stack-driven walk visits every directory, file and symlink of the tree exactly as often as it is there |
| `TransferPlan.WalkCountsTheBytes` | src/ssh/transfer.rs:276-301 | the bytes counted are the sum of the file sizes of the tree |
| `TransferPlan.WalkPutsParentsFirst` | src/ssh/transfer.rs:152-261 | everything comes after the directory it is in |
| `TransferPlan.PopAndPush` | src/ssh/transfer.rs:166-212 | popping a directory and pushing its subdirectories is one step of the recursive listing |
| `TransferPlan.AnUnreadableDirectoryIsAnItem` | src/ssh/transfer.rs:178-183 | a directory that cannot be listed is an item without children |
| `TransferPlan.WhatIsPlanned` | src/ssh/transfer.rs:160-301 | directories, sizes, links to be passed over and names already taken are planned for what they are |
| `TransferPlan.WhereItLiesAndLands` | src/ssh/transfer.rs:160-262 | source and destination of whatever is in a directory are those of the directory, one slash and its name |
| `TransferPlan.TheSelectedName` | src/ssh/transfer.rs:549-551 | a selection lands under what follows its last slash, slashes at the end aside |
| `TransferPlan.ListedOnce` | src/ssh/transfer.rs:152-261 | with distinct names in each directory nothing shares its path with anything else |
| `TransferPlan.ListedWithoutParts` | src/ssh/transfer.rs:28-33 | with no name beside its own temporary name no path is the temporary name of another |
| `TransferPlan.JoinedInjective` | src/ssh/transfer.rs:190-192 | plain relative paths and destination strings determine each other |
| `TransferPlan.CutAtASlash` | src/ssh/transfer.rs:190-192 | a destination string cut at a slash is cut between two names |
| `Planner.FewerNodesLeft` | src/ssh/transfer.rs:166-212 | the walk ends because the nodes under the stacked directories become fewer |
| `Planner.Plan.PushFile` | src/ssh/transfer.rs:267-301 | adds one file, counts its size, and stops on a cancelled event |
| `Planner.Plan.List` | src/ssh/transfer.rs:166-212 | one directory adds its item, its files and its links, and stacks its subdirectories, with source and destination on the same relative path |
| `Planner.Plan.Walk` | src/ssh/transfer.rs:152-261 | the stack loop adds exactly the recursive listing, or stops at the first cancelled event |
| `Planner.Plan.Build` | src/ssh/transfer.rs:116-149 | succeeds exactly when no event is cancelled, and then the plan and its total are those of the selection |
| `Planner.PlanIsTheSelection` | src/ssh/transfer.rs:116-149 | the plan holds each thing under the selection exactly once and its total is the sum of the sizes |
| `Planner.PlanItems` | src/ssh/transfer.rs:116-149 | every item has source and destination on the same relative path, starting with the name of its source |
| `Planner.ParentsArePlannedFirst` | src/ssh/transfer.rs:113-149 | in the whole plan a directory comes before whatever is in it |
| `Planner.TheTotalIsWhatWillMove` | src/ssh/transfer.rs:85-93 | the bytes that will move are the total counted while planning |
| `Planner.DestinationsAreDistinct` | src/ssh/transfer.rs:116-149 | distinct names give distinct destinations across the whole plan |
| `Planner.NoDestinationIsAPart` | src/ssh/transfer.rs:28-33 | no destination is the temporary file of another |
| `Planner.NoFileIsAboveADirectory` | src/ssh/transfer.rs:116-149 | no file and no temporary file stands where a planned directory needs a directory |
| `Transfer.Engine.Pump` | src/ssh/transfer.rs:442-492 | the chunk loop copies the source byte for byte for every sequence of short reads, or stops at the first fault or cancellation; each event of progress tells the bytes moved so far |
| `Transfer.Engine.Upload` | src/ssh/transfer.rs:426-456 | only the temporary file changes, and finishing means it holds the source |
| `Transfer.Engine.Download` | src/ssh/transfer.rs:459-492 | the same from the remote side, with a flush |
| `Transfer.Engine.Cleanup` | src/ssh/transfer.rs:494-506 | the temporary file is gone unless its removal failed |
| `Transfer.Engine.CopyFile` | src/ssh/transfer.rs:381-424 | the file is copied, given up with the old target untouched, or complete under its temporary name; how many requests that takes, and that the last one logged is the removal or rename the outcome names; RENAME refuses an existing name (section 6.5 of draft-ietf-secsh-filexfer-02) |
| `Transfer.Engine.PutInPlace` | src/ssh/transfer.rs:396-412 | exactly what a failed rename leaves: the temporary file whole, and the old target gone if and only if its removal worked |
| `Transfer.Engine.EnsureDir` | src/ssh/transfer.rs:514-531 | the directory is there afterwards or was not made; on download the missing ones above it may be made too, and nothing else changes |
| `Transfer.Engine.CreateDirAll` | src/ssh/transfer.rs:526-529 | missing directories are made outermost first; nothing that was there changes; it succeeds unless a request fails or a file is in the way |
| `Transfer.Engine.OneItem` | src/ssh/transfer.rs:323-379 | what one item does to the destination, with the numbers of its own removal and rename in the request log, and the exact events reported for it; the run goes on unless the last of them was answered with a stop |
| `Transfer.Engine.OneFile` | src/ssh/transfer.rs:346-379 | the same for a file: start, chunks, and one of finished, failed or a stop |
| `Transfer.Engine.Run` | src/ssh/transfer.rs:310-382 | the items are handled in order; the run is cancelled if and only if its last delivered event, and no earlier one, was answered with a stop; exactly the items after that point are left alone; the numbers in the outcomes are those of the logged removals and renames of that very item; the summary is the tally of the outcomes; the numbers of progress only grow, up to the bytes moved |
| `Transfer.FilesAreOldOrWhole` | src/ssh/transfer.rs:310-506 | for every fault, sequence of short reads and cancellation point each file has the whole source under its name, or what it held before, but for an upload that removed the old file and could not rename |
| `Transfer.DestinationsAreWholeOrUntouched` | src/ssh/transfer.rs:310-506 | and nothing is left under the temporary name, unless a removal or rename sent for that very file failed; opens, reads, writes, flushes and closes may fail as they like |
| `Transfer.RunsCleanUpAfterThemselves` | src/ssh/transfer.rs:310-506 | a run whose removals and renames all work, whatever else fails and wherever it is cancelled, leaves every file old or whole and no temporary file |
| `Transfer.FaultlessRunsLeaveNothingBehind` | src/ssh/transfer.rs:310-506 | a run in which no request fails, cancelled at any event, leaves every file old or whole and no temporary file |
| `Transfer.DirectoriesAreMadeOrUntouched` | src/ssh/transfer.rs:335-344 | a directory that was made is there at the end, any other is as it was or made for one inside it |
| `Transfer.AFailedRenameKeepsTheData` | src/ssh/transfer.rs:400-412 | when the final rename fails the whole source is under the temporary name |
| `Transfer.TheOldFileIsLostExactlyWhen` | src/ssh/transfer.rs:400-412 | a file that was there is gone at the end of the run if and only if an upload told to replace it had removed it and its rename failed |
| `Transfer.AnOverwriteThatLosesTheFile` | src/ssh/transfer.rs:400-412 | one byte uploaded over an existing file with every request working but the rename: neither file is under the name |
| `Transfer.UnplannedPathsAreUntouched` | src/ssh/transfer.rs:310-506 | no other path changes, but for missing directories made above a planned local one |
| `Transfer.CalmRunsSucceed` | src/ssh/transfer.rs:310-422 | with nothing in the way, no fault and no event answered with a stop every item succeeds |
| `Transfer.CompleteRunsMoveThePlan` | src/ssh/transfer.rs:85-100 | when every item succeeds the summary is the planned files and bytes |
| `Transfer.WhatTheSummaryCounts` | src/ssh/transfer.rs:320-379 | files, skips and failures are the numbers of outcomes of each kind, and the bytes those of the files copied, for every run |
| `Transfer.PlansAreDistinct` | src/ssh/transfer.rs:116-301 | what the walk plans meets the condition the copy relies on |
| `ScriptVars.Expand` | src/ssh/script_runner.rs:57-86 | the scanning loop terminates and is the left-to-right reading of the text |
| `ScriptVars.ExpandingAroundAPlaceholder` | src/ssh/script_runner.rs:57-86 | a known placeholder is replaced exactly when an even number of braces stands before it; the texts on either side expand as if alone, and the value put in is not scanned again |
| `ScriptVars.WhatTheKeysStandFor` | src/ssh/script_runner.rs:34-42 | each of the four keys stands for its own field, with any white space around it |
| `ScriptVars.PlainTextIsUnchanged` | src/ssh/script_runner.rs:53-56 | text with no known placeholder is unchanged |
| `ScriptVars.PlainScriptsAreUnchanged` | src/ssh/script_runner.rs:88-101 | a script that mentions nothing known is expanded to itself on every server |
| `ScriptRunner.ExpansionDoesNotDecide` | src/ssh/script_runner.rs:88-101 | expansion touches commands only: on the same answers the same steps run and are skipped whatever the values |
| `ScriptRunner.RunScript` | src/ssh/script_runner.rs:181-231 | one status per step, each decided by the step before it as `ScriptRunner.WhenAStepStarts` says, and the event trace step by step |
| `ScriptRunner.WhenAStepStarts` | src/ssh/script_runner.rs:175-208 | in terms of results and trace: on success after exit code 0 and nothing else, on failure after any other, on output exactly if the needle stands in it, always and first in any case; a step that does not start is skipped |
| `ScriptRunner.WhatAStepComesTo` | src/ssh/script_runner.rs:205-223 | a started step ends with its exit code and its whole output, a timeout after its own or 120 seconds as code 124, a failed channel as a skip |
| `ScriptRunner.EachStepIsReportedOnce` | src/ssh/script_runner.rs:196-231 | picked out of the trace a step is one skip, or a start, its output and one ending |
| `ScriptRunner.SkipsCascade` | src/ssh/script_runner.rs:175-231 | after a skipped or errored step every later step is skipped until one that always runs |
| `ScriptRunner.TimeoutsAreFailures` | src/ssh/script_runner.rs:154-223 | a timed-out step counts as a failure, so a step on failure runs after it |
| `ScriptRunner.ScriptEventLines` | src/session.rs:156-191 | the lines of one event and the text held back are those of the specification |
| `ScriptRunner.EndingsShowWhatWasHeld` | src/session.rs:156-191 | each ending shows what was held and says how the step ended, and no other event but output touches what is held |
| `ScriptRunner.ScriptRunState.Append` | src/tui/script_run.rs:121-127 | the second copy of the splitter does the same on its own fields |
| `ScriptRunner.ScriptRunState.Apply` | src/tui/script_run.rs:114-165 | each event appends the same lines as the first copy would print |
| `ScriptRunner.ScriptRunState.ApplyAll` | src/app.rs:3444-3453 | a whole run appends the lines of its events in order |
| `ScriptRunner.ScriptRunState.ServerStarted` | src/tui/script_run.rs:99-112 | a new section flushes the text held back by the server before it |
| `ScriptRunner.ScriptRunState.MarkFinished` | src/tui/script_run.rs:184-187 | the end of a run shows the text held back |
| `ScriptRunner.ScriptRunState.MarkCancelled` | src/tui/script_run.rs:194-198 | so does a cancellation |
| `ScriptRunner.CancellingKeepsTheText` | src/tui/script_run.rs:189-198 | wherever output is cut off, the lines are its pieces without their line ends and the text held back is the rest |
| `ScriptRunner.SplitInTwo` | src/session.rs:169-175 | splitting a text in two goes is splitting it once |
| `ScriptRunner.ChunkingDoesNotMatter` | src/session.rs:169-175 | for any cutting of the bytes into chunks the lines and the held tail are those of the texts of all chunks put together |
| `ScriptRunner.WhenTheLinesAreTheOutput` | src/session.rs:169-175 | they are those of the output as the conditions of later steps see it, read in one go, if and only if no chunk boundary falls inside a character |
| `ScriptRunner.ACutCharacterIsShownTwice` | src/ssh/script_runner.rs:236-277 | two bytes of one character in two chunks: the output has the character, the screen shows two replacements |
| `Utf8.ReadInTwo` | src/ssh/script_runner.rs:251-269 | lossy UTF-8 of bytes in two goes is that of the whole unless the second part goes on with a character the first ends in; then it has more characters |
| `Utf8.ReadInChunks` | src/ssh/script_runner.rs:248-269 | the same for any number of chunks, characters cut into up to four of them included |
| `Utf8.EncodedTextIsRead` | src/ssh/script_runner.rs:269 | the bytes of a text are read as that text, and at its end no character is open |
| `Utf8.WholeIsEncoded` | src/ssh/script_runner.rs:269 | and what is read as a character is the bytes of that character |
| `Utf8.ReplacedIsTheLongestBeginning` | src/ssh/script_runner.rs:269 | what is replaced at once is the longest beginning of a character that stands there |
| `ScriptRunner.SplitLosesNothing` | src/session.rs:169-175 | a text is its pieces and the tail, and each line is its piece without the line end |
| `ScriptRunner.LinesAreTheText` | src/session.rs:169-175 | without carriage returns lines and tail put together are the text |
| `ScriptRunner.NoTextCrossesSteps` | src/session.rs:150-191 | on every run nothing is held back where a step starts, and each step shows its own output whole |
| `SshConfig.Parse` | src/ssh_config.rs:107-166 | the single pass equals grouping into blocks and then resolving defaults |
| `SshConfig.ALineIsRead` | src/ssh_config.rs:203-215 | a line of white space, keyword, separators, value and comment, each in any shape, says its keyword in lower case and its value |
| `SshConfig.AReadLineHasParts` | src/ssh_config.rs:203-215 | every line that says anything has that shape |
| `SshConfig.WhenALineSaysNothing` | src/ssh_config.rs:203-215 | a line says nothing if and only if it has not |
| `SshConfig.LowerForgetsCase` | src/ssh_config.rs:199-214 | two keywords are the same if and only if they differ at most in the case of A to Z |
| `SshConfig.OneNameOpensAHost` | src/ssh_config.rs:177-195 | one name opens a host, a lone star the defaults, any other pattern nothing |
| `SshConfig.SeveralNamesOpenNothing` | src/ssh_config.rs:177-195 | and so does any header that is not one word |
| `SshConfig.APortIsRead` | src/ssh_config.rs:136-148 | a port is read from any decimal spelling of a number up to 65535 |
| `SshConfig.AReadPort` | src/ssh_config.rs:136-148 | and from nothing else |
| `SshConfig.TildeIsTheHomeDirectory` | src/ssh_config.rs:220-228 | a leading tilde stands for the home directory, any other path is left as it is |
| `SshConfig.WhereASettingBelongs` | src/ssh_config.rs:115-127 | a header starts a block, a match block says nothing, a setting belongs to the block it stands in |
| `SshConfig.WhatAHostBlockSays` | src/ssh_config.rs:140-156 | which setting fills which field: the last of each, the first identity file, the last port that can be read, and the name for a missing address |
| `SshConfig.WhatTheDefaultsSay` | src/ssh_config.rs:131-139 | the same for the defaults |
| `SshConfig.WhichBlocksCount` | src/ssh_config.rs:107-152 | named blocks are the hosts, in the order of the file; the preamble and a block for all hosts are the defaults; nothing else counts |
| `SshConfig.TheDefaultsFillGaps` | src/ssh_config.rs:154-169 | what a host says for itself stands, and the defaults fill only what it leaves open |
| `SshConfig.AUsualBlockIsAHost` | src/ssh_config.rs:107-169 | the text of a block with all five keywords, in any spelling, is imported as one host with exactly those values |
| `SshConfig.ApplyDefaults` | src/ssh_config.rs:154-166 | a host keeps what it set and takes the rest from the defaults |
| `SshConfig.SkippedSettingsDoNotMatter` | src/ssh_config.rs:107-148 | a setting in a skipped block can be removed without changing the result |
| `SshConfig.MovingTheDefaultsChangesNothing` | src/ssh_config.rs:96-166 | a default block can be moved past any blocks that are not defaults |
| `SshConfig.AnUnreadablePort` | src/ssh_config.rs:126-138 | an unreadable port leaves a host as it was but erases an earlier default |
| `ServerOrder.ComparatorsAgree` | src/cli/list.rs:26-41 | the command line comparator and the menu key comparison agree on every pair of servers |
| `ServerOrder.WhatTheOrderMeans` | src/cli/list.rs:21-41 | by name in dictionary order; by first tag, the untagged last; by the last connection, the latest first and those never connected last; names decide ties |
| `ServerOrder.MenuOrderIsTotal` | src/tui/main_menu.rs:227-244 | the menu order is a total preorder |
| `ServerOrder.SortedIndicesAreSortedEntries` | src/tui/main_menu.rs:227-244 | stably sorting positions is stably sorting the servers |
| `ServerOrder.TheOrderingsAgree` | src/cli/list.rs:26-41 | for every list, every order and any two stable sorts both places list the servers in the same sequence |
| `StableSort.Unique` | src/tui/main_menu.rs:227-244 | a list has only one stable sorting |
| `StableSort.SortStablySorts` | src/tui/main_menu.rs:227-244 | every list has one |
| `MainMenu.TheMenuListsLikeTheCommandLine` | src/cli/list.rs:26-41 | with no filter the menu rows are the servers in the sequence the command line prints them |
| `MainMenu.RowsAreTheMatches` | src/tui/main_menu.rs:302-315 | the visible rows are the matching servers, each once, stably sorted |
| `MainMenu.RowsAreInOrder` | src/tui/main_menu.rs:226-243 | of two rows the upper one comes first in that order |
| `MainMenu.WhatTheFilterFinds` | src/tui/main_menu.rs:209-214 | a server is shown exactly if the filter is empty or stands, case aside, in its name, in user@host:port or in a tag |
| `MainMenu.MainMenuState.MoveSelection` | src/tui/main_menu.rs:321-330 | the arrow keys move by at most one row and stay within the rows |
| `MainMenu.MainMenuState.Reanchor` | src/tui/main_menu.rs:441-447 | the selection goes to the row of the anchor, or to the first row |
| `MainMenu.MainMenuState.Resort` | src/tui/main_menu.rs:478-481 | the anchor is taken under the old order and found again under the new |
| `MainMenu.MainMenuState.HandleFilterKey` | src/tui/main_menu.rs:398-439 | each key in filter mode does one step of the specification |
| `MainMenu.MainMenuState.HandleKey` | src/tui/main_menu.rs:332-392 | each key does one step of the specification and asks for its action |
| `MainMenu.WhichKeyAsksForWhat` | src/tui/main_menu.rs:332-392 | each action is asked for by its own key and no other, letters only while no filter is typed, and a server action only about the selected one |
| `MainMenu.WhatAKeyDoes` | src/tui/main_menu.rs:332-439 | what each key does to filter, mode and selection |
| `MainMenu.MainMenuState.ClampSelection` | src/tui/main_menu.rs:483-492 | after the list changed the selection is a row again |
| `MainMenu.RunsKeepASelection` | src/tui/main_menu.rs:321-481 | after every sequence of keys and re-sorts a visible row is selected whenever there is one |
| `MainMenu.RunsFollowTheServer` | src/tui/main_menu.rs:398-481 | over every run of filter edits, clears and re-sorts the same server stays selected while it stays visible |
| `MainMenu.ActionsAreAboutTheSelection` | src/tui/main_menu.rs:317-392 | whatever a key acts on is the selected server, which is visible and matches the filter |
| `JumpChain.FromEntry` | src/ssh/session.rs:118-161 | success returns the chain outermost first with ids aligned to endpoints and the enabled remote routes; failure names the reason the chain stops, in the order the reasons are checked |
| `JumpChain.RoutesInOrder` | src/ssh/session.rs:148-161 | the routes come in the order of their forwards |
| `JumpChain.StoppingShort` | src/ssh/session.rs:123-142 | when resolution fails no chain of at most eight found, distinct hops ends at a direct server |
| `JumpChain.ResolutionIsUnique` | src/ssh/session.rs:123-142 | there is at most one chain |
| `JumpChain.OneReasonOnly` | src/ssh/session.rs:124-134 | a chain that stops short does so for exactly one reason |
| `JumpChain.ConfirmDelete` | src/app.rs:1812-1821 | the server is dropped and references to it are cleared, and nothing else changes |
| `JumpChain.WhatDeletingLeaves` | src/app.rs:1812-1821 | exactly the servers with another id are left, once each, in their order and with every field as it was, only references to the deleted one being cleared; the deleted one is not found |
| `JumpChain.DeletingKeepsTheOthersReachable` | src/app.rs:1812-1821 | a server that resolved before a deletion resolves after it, along its old chain cut where the deleted server was |

## Left out

- First creation by two instances at once: `init_slots` claims after the existence check at startup, so runs of several instances start from an existing vault.
- `CodeScreens.RefusalsAreBoundedByTheScreens`: a key press of one instance is handled before the next of another, so two instances that read and write the entry within the same moment are not covered; neither are changes of the vault or the enrolment meanwhile.
- Failure of the random source and of key derivation: both always succeed here.
- src/config/migrate.rs: its table is one entry that changes nothing but the schema number.
- Zeroization, secret types and file permissions: no effect on what is read back.
- `App.App.TryUnlock`: its first-run branch is left out; no state of the program ever has the mode that leads to it.
- `AtomicWrite.WriteFileAtomic`: creation of the parent directory is a single step that may fail; a directory that cannot be created loses nothing.
- `CliUnlock.Run`: messages printed between prompts are left out.
- `Transfer.Engine.Pump`: the loop the source writes out twice, once in each direction, is written once; failed writes leave anything under the temporary name.
- `Transfer.Engine.Run`: files of the source side do not change during the run, and nobody else writes the destination.
- `Planner.Plan.PushFile`: byte totals are unbounded rather than 64 bits wide, and the numbers shown while scanning are left out.
- The SFTP client, its wire format, host keys, terminals, port forwarding and agents: input and output.
- `ScriptRunner.ScriptRunState.Apply`: colours, scrolling, the log file and the line for an unreachable server are left out.
- `SshConfig.Parse`: the home directory is a parameter.
- `MainMenu.MainMenuState.HandleKey`: drawing and the toolkit's own copy of the selection are left out.
- Settings forms, file browser, forward and target pickers, help, themes, languages, argument parsing: small local state.
