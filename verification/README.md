# A verified model of lithium-core's key management and sessions

This project models, in Dafny, the parts of `lithium_core` whose correctness depends on many steps
fitting together: crash-safe rotation of the master key, the `.keyf` record format under it, the locked
secret arena, the ephemeral store with expiry, HPKE streaming sessions, and the hybrid box with its
contexts and wire formats. It proves what each of them promises for every input, every run or every
reachable state, and where the code does not keep a promise it says exactly when.

`dafny verify dfyconfig.toml` checks the whole project.

## How it is built

* `Common.dfy` - result types, bytes.
* `Keyfile.dfy` - the `.keyf` record: printer, parser (as functions and as the running code), load, save, rewrap.
* `Rotation.dfy` - the key store as a state machine. One rename, link, removed directory entry or `store_mk`
  is one step. A crash may come between any two steps and forgets everything but the disk. An I/O error may
  come wherever the code can return one. Callers and the rotation worker interleave under the read/write gate.
* `RotationSafety.dfy` - the invariant, kept by every step and so in every run.
* `RotationGate.dfy` - when a caller that gets through the gate finds the store quiet, and what callers are told.
* `RotationTheorems.dfy` - what follows: nothing is lost, recovery succeeds, identity is stable, callers agree.
* `RotationBlocked.dfy` - stores that no later start accepts, however the system goes on.
* `RotationHazards.dfy` - the runs on which a promise fails, and the exact conditions.
* `KeyManager.dfy` - the procedures of `manager.rs` as they run on a disk changed in place, with I/O errors
  before or after the effect of any operation but the marker, which is one step here. They record the protocol
  steps they take; the record is always a run of the state machine, so a crash between any two recorded steps is
  covered by its theorems. They compose: `LabelOutlivesRotations` starts, uses a label and rotates twice.
* `KeyPaths.dfy`, `KeyStore.dfy` - labels, paths and key types; the protocol over real `.keyf` bytes.
* `Arena.dfy` - the secret arena. `Store.dfy` - the ephemeral store. `StoreHistory.dfy` - its runs with
  arbitrary timestamps.
* `Session.dfy`, `HpkeSetup.dfy` - HPKE sessions. `Context.dfy`, `Wire.dfy`, `KyberBox.dfy` - contexts, wire
  formats and the hybrid box.
* `Suites.dfy`, `Binding.dfy` - what keys and ciphertexts depend on. A lawful cipher or derivation may collide, so
  that an input matters is shown by a suite that tells any two values of it apart.

Cryptography enters as function-valued parameters with a few properties (`Keyfile.SuiteOk`,
`KyberBox.PrimsOk`, `Rotation.Lawful`), none of them an axiom, and functions that have them are exhibited: a
cipher with which `.keyf` files are rotated (`KeyStore.FilesCanRotate`), an ideal record format
(`RotationHazards.IdealEnvIsLawful`) and a full set of primitives (`KyberBox.PrimsExist`).
Random values are parameters. Two idealisations are stated where they are used: neither encrypted copy of the
next master key opens under a master key it was not sealed with (`Rotation.Exclusive`, and the guards of the
two write steps), and what opens in a session was sealed by its sender (`Session.Authentic`).

## Where the code falls short of its promise

* **Callers of a store that is not quiet.** The store is quiet if no marked directory is pending and the cached
  master key, if there is one, is the provider's. A secret that a caller creates is harmless exactly if the store is
  quiet (`RotationHazards.CreationDuringRotation`; a file too large to be read back is hidden anyway). Creating one
  otherwise is the only step that the safety theorems about the disk exclude (`Rotation.Hazard`); what callers are
  told is proved for runs in which nobody takes the gate of such a store (`Rotation.Late`). Four runs from the empty store show the harm. In
  two of them a live file has no copy in the marked directory, so that no recovery and no start ever succeeds again,
  whatever happens (`RotationBlocked.BlockedForever`); in the other two recovery succeeds, but the provider's key
  does not open the new file:
  - `read_gate` checks `poisoned` before it waits for the lock (`src/keys/manager.rs:687-692`). After a commit that
    failed twice a caller past the check creates its secret (`RotationHazards.LateCallerBreaksRecovery`).
  - `write_marker` can fail after the marker is in place (`src/keys/manager.rs:296-302`). The manager is then not
    even poisoned (`RotationHazards.MarkerErrorBreaksRecovery`). A marker error by itself does no harm: the safety
    theorems hold in runs with it, and a crash after it recovers.
  - With a cached key, a commit whose `refresh_current_mk` fails leaves the old key in the cache for a caller past
    the check (`RotationHazards.StaleKeyHidesSecret`).
  - With a cached key, the rotation after a marker error first completes the pending one. If it then fails, it
    returns without a refresh, unpoisoned, and every caller that begins afterwards works with the old
    key (`RotationHazards.RecoveredRotationLeavesStaleKey`). So the check before the lock is not the only cause.
* **Removal order.** `remove_dir_all` may delete a staged file before `ready`. A crash in between loses nothing, but
  no later start ever succeeds (`RotationHazards.UnorderlyRemovalBlocksStart`, a run from the empty store, and
  `RotationBlocked.BlockedForever`); `RotationTheorems.RecoveryExactly` says when recovery succeeds.
  `docs/reference.md` calls the rotation atomic; the model follows the code.
* **Strict cache policy.** A crash between the first seed file and its public key leaves a store that no later Strict
  start ever accepts (`RotationHazards.StrictRejectsHalfStart`, exactly: `RotationTheorems.StartExactly`).
* **Large blobs.** `load_or_create_sealed_blob` accepts payloads over 65,396 bytes. They can never be read back
  (`Keyfile.SavedLoadsIffSmall`), and in every run after such a creation the marker is never written, so no
  rotation ever succeeds again (`KeyStore.OversizedBlobStopsRotation`, `KeyStore.OversizedBlobAccepted`).
* **Stale instants.** The store reads the clock before it takes the lock. With instants in any order it answers
  like a plain map with expiry exactly if no call asks for an item that is alive at its instant although an earlier
  sweep, write or peek found it expired (`StoreHistory.AgreesExactly`; two runs: `StoreHistory.StaleReadDiffers`).

`docs/key-hierarchy.md` says that labelled secrets are derived from the master key; the code draws them at random
and stores them, and so does the model.

## Model

| member | source | states |
|---|---|---|
| RotationSafety.RunKeeps | src/keys/manager.rs:622-798 | in every run of starts, creations, rotations, I/O errors, marker errors, late callers and crashes, unless a caller creates a file in a store that is not quiet, the store, seed, worker and caller invariants hold in every state |
| RotationSafety.ReachableInv | src/keys/manager.rs:881-988 | the same for every run that begins with an empty store |
| RotationSafety.StepKeeps | src/keys/manager.rs:622-798 | every single step keeps that invariant |
| RotationSafety.RecoverKeeps | src/keys/manager.rs:570-677 | every step of recovery, apply and clean-up keeps it, with `.rotate` emptied in any order |
| RotationSafety.StartKeeps | src/keys/manager.rs:912-941 | every step of start keeps it |
| RotationSafety.RotateKeeps | src/keys/manager.rs:722-770 | every step of a rotation up to the marker, the marker error, the refresh and a reload keep it |
| RotationSafety.FailKeeps | src/keys/manager.rs:772-813 | an I/O error anywhere, handled as its callers handle it, keeps it |
| RotationSafety.ReadKeeps | src/keys/manager.rs:404-465 | every step of a caller through gate, existence check, link and load keeps it, unless it creates a file in a store that is not quiet |
| RotationSafety.FindNextIsNext | src/keys/manager.rs:641-667 | whatever recovery decrypts as the next master key is the key of the pending rotation, and it is taken for already switched if and only if the provider holds it |
| RotationSafety.ApplyWorld | src/keys/manager.rs:580-590 | moving one staged file over its live file keeps every payload reachable |
| RotationSafety.StoreNextWorld | src/keys/manager.rs:671-673 | once every live file is under the next key, storing it settles the store |
| RotationSafety.RemoveWorld | src/keys/manager.rs:570-578 | removing any one entry of a directory that has served its purpose keeps the store consistent |
| RotationSafety.ReadyWorld | src/keys/manager.rs:760-761 | the marker on a fully staged directory makes a complete pending rotation |
| RotationSafety.CreateWorld | src/keys/manager.rs:418-432 | a record sealed under the provider's key joins a store with nothing pending |
| RotationSafety.IdentityLoads | src/keys/manager.rs:477-497 | with nothing pending, the keys loaded from disk are those of the saved seeds |
| RotationSafety.LoadedIdentity | src/keys/manager.rs:477-497 | in any state of the store, keys that load are those of the saved seeds |
| RotationGate.RunGated | src/keys/manager.rs:680-692 | after every run in which each marker error was followed by a serving start or a refresh, whoever passes the `poisoned` check of an idle manager finds the store quiet |
| RotationGate.FaithfulStep | src/keys/manager.rs:404-465 | as long as nobody is late, a step leaves callers inside the gate with a quiet store and every returned value equal to the saved payload, and is not the hazard |
| RotationGate.OnTimeKeeps | src/keys/manager.rs:680-720 | the same for every run in which nobody is late |
| RotationTheorems.NothingLost | src/keys/manager.rs:570-677 | in every reachable state the provider's key opens every live file to the payload first saved in it, or a complete ready directory holds rewrapped copies of all of them and the next key under the provider's |
| RotationTheorems.CrashSafe | src/keys/manager.rs:622-677 | after any run with crashes anywhere, recovery included, the next recovery succeeds and the provider's key opens every file, if `.rotate` is removed at once or `ready` first |
| RotationTheorems.RecoveryIsSound | src/keys/manager.rs:622-677 | whenever recovery returns Ok, the provider's key opens every file and no directory is left |
| RotationTheorems.RecoveryExactly | src/keys/manager.rs:633-669 | recovery succeeds if and only if `ready` is gone, the switch has not happened, or the new key copy and all staged files are still there |
| RotationTheorems.EnsureSeedExactly | src/keys/manager.rs:337-377 | `ensure_seed_keypair` fails if and only if the public key file is missing under Strict; otherwise seed and public key are in order |
| RotationTheorems.StartExactly | src/keys/manager.rs:881-941 | from every disk a crash can leave, start succeeds if and only if no seed lacks its public key file or the policy repairs it, and returns the saved seeds' keys |
| RotationTheorems.RepairingStartSucceeds | src/keys/manager.rs:304-377 | under `RepairMissingOnly` no crash leaves a store that the next start rejects, and it returns the keys reported before |
| RotationTheorems.SavedNeverChanges | src/keys/manager.rs:404-433 | the payload first saved at a path is the payload of that path for ever |
| RotationTheorems.IdentityStable | src/keys/manager.rs:1049-1065 | every later start or reload reports the same public keys, across rotations and crashes |
| RotationTheorems.LoadIdentityExactly | src/keys/manager.rs:304-335 | on any disk, tampered with or not, the identity loads if and only if both public key files are those of their seeds, and is then theirs |
| RotationTheorems.StartRefusesForeignKeys | src/keys/manager.rs:304-377 | a start refuses a seed it cannot open, a public key file of another seed, and one without a seed, under either policy |
| RotationTheorems.StartStepsRefuse | src/keys/manager.rs:310-335 | in any state no step of a start creates a seed beside a public key file or replaces one |
| RotationTheorems.ReportsIdentity | src/keys/manager.rs:1049-1065 | every start and reload reports the keys of the saved seeds |
| RotationTheorems.GateConsistent | src/keys/manager.rs:680-720 | while any caller that came on time holds the gate, and while no writer holds the gate of an unpoisoned manager that has settled its marker errors, all files are under one key, which is the provider's, the cached one and the callers' |
| RotationTheorems.CallersAgree | src/keys/manager.rs:404-433 | callers on one label, none of them late, that get a value get the value first linked there, in any interleaving and across crashes |
| RotationTheorems.PoisonRefuses | src/keys/manager.rs:680-692 | poisoning lasts as long as the process and every call begun after it is refused |
| RotationTheorems.NoMarkerNoChange | src/keys/manager.rs:728-761 | until the marker is written no rotation, however it ends, changes a live file or the provider |
| RotationTheorems.CommitOutcome | src/keys/manager.rs:772-798 | commit ends with the provider holding exactly `new_mk`, all files under it and the directory gone, or with a poisoned manager |
| RotationBlocked.BlockedForever | src/keys/manager.rs:580-590 | a live file without a copy in a marked directory: in every continuation recovery fails, no start serves and no rotation writes its marker |
| RotationBlocked.HalfStartedForever | src/keys/manager.rs:320-324 | a seed without its public key file under Strict: in every continuation no start serves |
| RotationHazards.CreationDuringRotation | src/keys/manager.rs:404-433 | after a creation by a caller past the check, recovery succeeds and the provider's key opens every file if and only if the store was quiet, or nothing was pending and the file is too large for any key |
| RotationHazards.LateCallerBreaksRecovery | src/keys/manager.rs:687-692 | a run in which a caller past the `poisoned` check creates a secret after a failed commit; however the system goes on, no recovery, start or rotation succeeds |
| RotationHazards.MarkerErrorBreaksRecovery | src/keys/manager.rs:296-302 | a run in which an error after the marker's rename leads to the same, for good, on an unpoisoned manager |
| RotationHazards.StaleKeyHidesSecret | src/keys/manager.rs:763-768 | a run in which a failed refresh and a caller past the check leave a file that the provider's key does not open |
| RotationHazards.RecoveredRotationLeavesStaleKey | src/keys/manager.rs:722-736 | a run that ends idle, unpoisoned and with nothing pending but with the old key cached, so that a caller who begins then leaves a file that the provider's key does not open |
| RotationHazards.UnorderlyRemovalBlocksStart | src/keys/manager.rs:570-578 | a run in which a staged file is removed before `ready` and a crash follows: nothing is lost, yet however the system goes on no start succeeds, whatever it draws |
| RotationHazards.RotationCompletes | src/keys/manager.rs:722-770 | with every lawful record format there is a run through the marker that takes a fresh store from its first master key to the next, ending idle with provider and cache on it and every file open under it |
| RotationHazards.StrictRejectsHalfStart | src/keys/manager.rs:320-324 | a crash during the very first start leaves a store on which, however the system goes on, no Strict start succeeds |
| KeyManager.Manager.constructor | src/keys/manager.rs:881-910 | a process launched on the disk that an earlier run left behind |
| KeyManager.Manager.ApplyOne | src/keys/manager.rs:582-587 | one staged copy replaces its live file, or an error before or after that |
| KeyManager.Manager.ApplyStagedFiles | src/keys/manager.rs:580-590 | on success exactly the targets are overwritten by their staged copies; without I/O errors it succeeds if and only if all are staged |
| KeyManager.Manager.RemoveOne | src/keys/manager.rs:570-578 | exactly one entry of the directory goes, or an error before or after that |
| KeyManager.Manager.CleanupRotationDir | src/keys/manager.rs:570-578 | the directory is removed in whatever order; nothing else changes |
| KeyManager.Manager.Inspect | src/keys/manager.rs:639-667 | the next key from the two encrypted copies, and "already switched" if and only if the provider holds it |
| KeyManager.Manager.RecoverPendingRotation | src/keys/manager.rs:622-677 | recovery is a run of the protocol and, without I/O errors, equals `RecoverAll` |
| KeyManager.Manager.TryCommit | src/keys/manager.rs:773-778 | the commit attempt; without I/O errors it succeeds if and only if all targets are staged |
| KeyManager.Manager.CommitRotation | src/keys/manager.rs:772-798 | Ok: provider holds exactly `newMk`, which opens every file, directory gone; Err: poisoned; no I/O error, no Err |
| KeyManager.Manager.PrepareStagedFiles | src/keys/manager.rs:592-620 | nothing but the staging directory changes; it succeeds if and only if every target can be rewrapped |
| KeyManager.Manager.DrawNextKey | src/keys/manager.rs:736-741 | an empty new directory and the next key; live files and provider untouched |
| KeyManager.Manager.SaveNextOld | src/keys/manager.rs:744-751 | the next key under the old one; live files and provider untouched |
| KeyManager.Manager.SaveNext | src/keys/manager.rs:744-757 | the two encrypted copies of the next key, before anything is staged |
| KeyManager.Manager.WriteNextKeys | src/keys/manager.rs:736-758 | a fresh directory with both copies; live files and provider untouched |
| KeyManager.Manager.Prepare | src/keys/manager.rs:736-761 | everything up to the marker; an error leaves live files and provider untouched, and no marker since that is one step |
| KeyManager.Manager.RefreshCurrentMk | src/keys/manager.rs:711-720 | the cached key follows the provider, or the manager is poisoned |
| KeyManager.Manager.RotateNow | src/keys/manager.rs:722-770 | three outcomes: rotated to exactly `newMk`; failed with nothing changed; poisoned. It returns idle, serving, with no caller in the gate. Without I/O errors it succeeds if and only if every live file can be rewrapped |
| KeyManager.Manager.SettlePublicKey | src/keys/manager.rs:304-335 | the public key file equals the seed's key on success; exactly when it fails |
| KeyManager.Manager.SaveSeed | src/keys/manager.rs:358-371 | a new seed file, refused where a public key file is already there |
| KeyManager.Manager.EnsureSeedKeypair | src/keys/manager.rs:337-377 | without I/O errors the disk and the outcome equal `EnsureSeed` |
| KeyManager.Manager.EnsureSeeds | src/keys/manager.rs:467-498 | without I/O errors the disk and the outcome are those of the two key pairs in order |
| KeyManager.Manager.LoadOrCreateMk | src/keys/manager.rs:912-919 | a missing master key is created, an existing one kept |
| KeyManager.Manager.Start | src/keys/manager.rs:881-988 | the returned keys are those of the saved seeds and the manager serves with a free gate; without I/O errors disk and keys equal `StartAll` |
| KeyManager.Manager.GetOrCreate | src/keys/manager.rs:1067-1127 | refused when poisoned, for the empty label and for labels over 64 bytes; otherwise the saved payload, or the caller's value, which is then the saved payload; on every return, errors included, the gate is as before |
| KeyManager.RotateTwice | src/keys/manager.rs:722-770 | two rotations in a row keep every payload; without I/O errors and with readable payloads both succeed |
| KeyManager.LabelOutlivesRotations | src/keys/manager.rs:722-1127 | start, use a label, rotate twice, use it again: whatever fails, both uses agree; without I/O errors everything succeeds and the last key opens every file |
| Keyfile.BuildRecord | src/keys/keyfile.rs:299-331 | the appended fields are the printed record |
| Keyfile.Take | src/keys/keyfile.rs:333-342 | the next bytes and a moved cursor exactly if they are there |
| Keyfile.TakeField | src/keys/keyfile.rs:375-400 | a length-prefixed field exactly if the length is the expected one and the bytes are there |
| Keyfile.ParseKeyfile | src/keys/keyfile.rs:355-418 | the running parser agrees with the fixed-offset reading, errors included |
| Keyfile.ParsePrint | src/keys/keyfile.rs:299-418 | every well-formed record parses back to its fields |
| Keyfile.PrintParse | src/keys/keyfile.rs:355-418 | whatever parses re-prints to the same bytes |
| Keyfile.SavedLoadsIffSmall | src/keys/keyfile.rs:461-480 | a record is its payload plus 140 bytes; it loads back, and can be rewrapped, if and only if the payload is at most 65,396 bytes |
| Keyfile.RecordBytes | src/keys/keyfile.rs:299-331 | a saved file byte for byte: magic, version, algorithm, every field at its offset and every length big-endian |
| Keyfile.LoadExactly | src/keys/keyfile.rs:542-572 | a file loads to a payload if and only if it is a record that saving this payload under this key and key type can write, within the size limit |
| Keyfile.RewrapPreserves | src/keys/keyfile.rs:574-615 | loading the rewrapped file under the new key gives what the original gave under the old one; payload nonce, ciphertext and length unchanged, salt and wrapping nonce new; every loadable file can be rewrapped |
| KeyPaths.HexInjective | src/keys/manager.rs:388-390 | different labels have different hex names |
| KeyPaths.HexReads | src/keys/manager.rs:388-390 | the hex name read back, high digit first, is the label |
| KeyPaths.CollectedKeyTypeIsOriginal | src/keys/manager.rs:543-559 | the key type recomputed from the file stem is the one used at creation |
| KeyPaths.KeyTypesDistinct | src/keys/manager.rs:388-398 | no two kinds of record share a key type |
| KeyPaths.PathsDistinct | src/keys/manager.rs:400-402 | different live files have different paths |
| KeyPaths.FixedNames | src/keys/manager.rs:22-41 | the fixed file names and key types |
| KeyPaths.LabelNames | src/keys/manager.rs:388-402 | the file name and key type of a label, by example |
| KeyStore.FileEnvLawful | src/keys/keyfile.rs:461-615 | the `.keyf` format has every property the protocol proofs use |
| KeyStore.CrashSafeFiles | src/keys/manager.rs:622-798 | crash safety down to the bytes of the files |
| KeyStore.FilesCanRotate | src/keys/manager.rs:722-770 | a cipher and a run through the marker with which a fresh store of `.keyf` files goes from any first master key to any next one |
| KeyStore.StuckRun | src/keys/manager.rs:592-620 | in any run at all, a file over the read limit outside a pending rotation keeps its bytes, the provider keeps its key and the marker is never written |
| KeyStore.OversizedBlobStopsRotation | src/keys/manager.rs:1112-1127 | after any reachable state with a payload over 65,396 bytes, the same holds of that file in every continuation, late callers and marker errors included |
| KeyStore.OversizedBlobAccepted | src/keys/manager.rs:1112-1127 | a run in which a fresh manager accepts such a payload |
| Arena.RoundUp | src/secrets/arena.rs:21-23 | the least multiple that is large enough, or none that fits a usize |
| Arena.BumpTiles | src/secrets/arena.rs:171-180 | a new slot keeps the slots aligned, disjoint and tiling exactly [0, offset) |
| Arena.TakeFree | src/secrets/arena.rs:166-170 | reusing a slot keeps the free lists exactly the slots without a handle, each once, under its length |
| Arena.PutFree | src/secrets/arena.rs:188-188 | returning a slot keeps the same |
| Arena.SlotIsZero | src/secrets/arena.rs:183-189 | every byte of a slot without a handle is zero |
| Arena.ClaimView | src/secrets/arena.rs:274-285 | a new handle reads as zeros and leaves what all others show |
| Arena.WriteView | src/secrets/arena.rs:225-228 | writing one handle changes what it shows and no other |
| Arena.FreeView | src/secrets/arena.rs:183-189 | freeing wipes the slot and leaves what the others show |
| Arena.ArenaInner.constructor | src/secrets/arena.rs:247-262 | an empty, zeroed arena |
| Arena.ArenaInner.Alloc | src/secrets/arena.rs:163-181 | a zeroed slot on a 16-byte boundary, of the least sufficient multiple of 16 bytes, disjoint from all live ones; exactly when it fails, and with which error |
| Arena.ArenaInner.Dealloc | src/secrets/arena.rs:183-189 | exactly this handle goes and its slot can be reused |
| Arena.ArenaInner.Claim | src/secrets/arena.rs:274-285 | the arena as a map from handles to bytes gains one zeroed entry, or nothing changes; exactly when it fails, and with which error |
| Arena.ArenaInner.Write | src/secrets/arena.rs:225-228 | the map from handles to bytes changes at this handle only |
| Arena.ArenaInner.StoreSliceFixed | src/secrets/arena.rs:294-307 | a new handle holding exactly the secret; a wrong length takes no space; exactly when it fails |
| Arena.ArenaInner.SingleClassExhausted | src/secrets/arena.rs:171-177 | with one size class, allocation fails only when all size/class slots are live |
| Store.BeforeIsTotalOrder | src/utils/store.rs:75-83 | the heap order is a strict total order |
| Store.PopKeepsIndex | src/utils/store.rs:162-169 | popping a heap entry together with the map entry it stands for keeps every other map entry indexed |
| Store.PushKeepsIndex | src/utils/store.rs:209-222 | an insertion under a fresh version keeps the index |
| Store.StoreInner.PeekHeap | src/utils/store.rs:158-158 | the entry that no other precedes |
| Store.StoreInner.SweepExpired | src/utils/store.rs:157-171 | removes exactly the entries expired at `now`, and leaves no heap entry that old |
| Store.StoreInner.NextVersion | src/utils/store.rs:173-179 | the counter counts up to its maximum and then fails |
| Store.StoreInner.Set | src/utils/store.rs:197-225 | the new state and result, errors included |
| Store.StoreInner.SetIfAbsent | src/utils/store.rs:227-260 | the new state and result, errors included |
| Store.StoreInner.Peek | src/utils/store.rs:262-277 | the new state and result |
| Store.StoreInner.Take | src/utils/store.rs:279-292 | the new state and result |
| Store.StoreInner.Del | src/utils/store.rs:294-299 | the new state and result |
| Store.StoreInner.CleanupRound | src/utils/store.rs:128-148 | after a sweep, the next deadline is the earliest in the heap: after `now` and not after any entry's expiry; no deadline only for an empty store |
| Store.TtlLimit | src/utils/store.rs:201-208 | a time to live is refused if and only if it ends after the last representable instant |
| Store.StoreRefinesPlainMap | src/utils/store.rs:197-299 | with timestamps that do not decrease in lock order and sweeps anywhere, every call returns what a plain map with expiry returns |
| StoreHistory.ReturnedWasWritten | src/utils/store.rs:197-299 | in every run, whatever the timestamps, a returned value was written under that key by an earlier successful call, has not expired at the reader's instant, and was not overwritten, taken or deleted in between |
| StoreHistory.MirrorAnswers | src/utils/store.rs:227-292 | one call answers like the plain map if and only if it does not ask for a live item that the store has lost |
| StoreHistory.LostExactly | src/utils/store.rs:157-171 | an item is lost if and only if a sweep, write or peek since it was written came at or after its expiry |
| StoreHistory.AgreesExactly | src/utils/store.rs:197-299 | in every run, whatever the timestamps, all calls answer like the plain map if and only if none asks for such an item |
| StoreHistory.OrderedIsNeverStale | src/utils/store.rs:197-299 | non-decreasing timestamps rule out such calls |
| StoreHistory.FreshStoreRefinesPlainMap | src/utils/store.rs:197-299 | so every run of a new store with non-decreasing timestamps answers like the plain map |
| StoreHistory.StaleReadDiffers | src/utils/store.rs:262-277 | two concrete runs on which they differ, after a sweep and after a peek |
| Session.ComputeSeqNonce | src/hpke/session.rs:16-23 | the loop computes base_nonce XOR I2OSP(seq, 12) of section 5.2 of RFC 9180 |
| Session.XorBits | src/hpke/session.rs:16-23 | the nonce's exclusive or, bit by bit |
| Session.NoncesDistinct | src/hpke/session.rs:16-23 | different counters give different nonces |
| Session.HpkeSenderContext.Seal | src/hpke/session.rs:68-79 | the ciphertext under the counter's nonce, the counter up by one, refusal at the maximum |
| Session.HpkeReceiverContext.Open | src/hpke/session.rs:83-104 | plaintext and counter, or refusal and poison |
| Session.EventKeeps | src/hpke/session.rs:67-105 | every send and every delivery keeps the accepted list a prefix of the sealed one |
| Session.AcceptedIsPrefix | src/hpke/session.rs:67-105 | for arbitrary reordered, dropped, replayed or altered input, accepted is a prefix of sealed |
| Session.SessionSafe | src/hpke/session.rs:67-105 | the same for every run of fresh contexts |
| Session.PoisonedStays | src/hpke/session.rs:84-98 | after a failed open nothing is ever accepted again |
| Session.RejectionIsFinal | src/hpke/session.rs:92-98 | after the first delivery that is not accepted nothing ever is |
| Session.InOrderDelivery | src/hpke/session.rs:83-104 | in-order delivery yields every sealed message |
| Session.SenderSealsAll | src/hpke/session.rs:68-79 | exactly the first 2^64 - 1 messages are sealed and the counter never wraps |
| Contexts.BaseAndAddBuildLists | src/crypto/context.rs:26-41 | exactly which roots and segments are accepted and which error the others get, and that contexts are segment lists |
| Contexts.JoinInjective | src/crypto/context.rs:34-41 | different segment lists give different contexts |
| Contexts.BindAadInjective | src/crypto/context.rs:43-54 | bound associated data determines segment list and caller data |
| Contexts.ComputeBindAad | src/crypto/context.rs:47-54 | the pushed bytes are the bound data |
| Contexts.LabelOf | src/crypto/context.rs:43-45 | the label of a sub-context as text |
| Contexts.BindAadBytes | src/crypto/context.rs:47-54 | bound data byte for byte: no NUL for empty caller data, one in front of other data |
| Wire.BoxRoundTrip | src/crypto/kyberbox.rs:49-68 | a well-formed box survives the wire |
| Wire.BoxCanonical | src/crypto/kyberbox.rs:58-68 | what parses as a box is its encoding |
| Wire.PubRoundTrip | src/crypto/kyberbox.rs:288-303 | a public key survives the wire |
| Wire.PubCanonical | src/crypto/kyberbox.rs:288-303 | what parses as a public key is its encoding |
| Wire.DualRoundTrip | src/crypto/kyberbox.rs:387-401 | a well-formed dual box survives the wire |
| Wire.DualCanonical | src/crypto/kyberbox.rs:393-401 | what parses as a dual box is its encoding |
| Wire.EncRoundTrip | src/hpke/types.rs:46-63 | an encapsulation of the right lengths survives the wire |
| Wire.HpkeRoundTrip | src/hpke/types.rs:82-104 | a well-formed HPKE message survives the wire |
| Wire.HpkeCanonical | src/hpke/types.rs:92-104 | what parses as an HPKE message is its encoding |
| Wire.WireErrors | src/hpke/types.rs:53-104 | exactly which byte strings each parser refuses, and the lengths its error names |
| KyberBox.BaseKeysAgree | src/crypto/kyberbox.rs:164-218 | exactly when the sender can derive a key, that the receiver derives the same, and that it is the combiner's key of both secrets, the context and the transcript |
| KyberBox.PrepEncryptExactly | src/crypto/kyberbox.rs:164-189 | the sender's result in every case: each error, or the combiner's key, the KEM blob and the public key |
| KyberBox.PrepDecryptExactly | src/crypto/kyberbox.rs:191-218 | the receiver's result in every case |
| KyberBox.DecryptInvertsEncrypt | src/crypto/aead.rs:63-109 | the framed AEAD opens what it sealed; the frame is the version, the nonce and 16 bytes of tag |
| KyberBox.DecryptExactly | src/crypto/aead.rs:89-109 | a blob decrypts if and only if it is an encryption under this key, context and associated data |
| KyberBox.BadBlobRefused | src/crypto/aead.rs:89-101 | a blob that is too short or of another version is refused |
| KyberBox.DecapsulateExactly | src/crypto/kyberbox.rs:136-162 | which KEM ciphertexts and key seeds are accepted, exactly, what accepting gives, and which error the others get |
| KyberBox.OpenInvertsSeal | src/crypto/kyberbox.rs:220-261 | exactly when sealing succeeds (context at most 246 bytes, contributory exchange), and that opening inverts it |
| KyberBox.OpenRefusesLongContext | src/crypto/kyberbox.rs:191-201 | the receiver refuses at the same context length |
| KyberBox.BaseKeyInfoInjective | src/crypto/kyberbox.rs:95-112 | the base-key info determines label, sender key, receiver key and ciphertext hash |
| KyberBox.DualAadInjective | src/crypto/kyberbox.rs:311-316 | the dual associated data determines reply key and caller data |
| KyberBox.DualOpensOffTheWire | src/crypto/kyberbox.rs:305-373 | a dual box sent over the wire opens to its data and reply key |
| HpkeSetup.ScheduleExactly | src/hpke/schedule.rs:11-37 | the key schedule succeeds if and only if the context is at most 225 bytes, with the session key and the 12-byte base nonce derived from the shared secret under their own labels and the caller's info |
| HpkeSetup.SetupExactly | src/hpke/session.rs:36-50 | the sender's set-up in every case: each error, or encapsulation, session key and base nonce |
| HpkeSetup.SetupsAgree | src/hpke/session.rs:36-65 | exactly when set-up succeeds, that the encapsulation survives the wire, and that both sides get the session key and base nonce of the exchange |
| HpkeSetup.HpkeStream | src/hpke/session.rs:36-105 | from set-up to last message: accepted is a prefix of sealed, and in-order delivery yields all |
| Binding.WrapBinds | src/keys/keyfile.rs:264-275 | a record is refused under another master key or key type, and with another salt or wrapping nonce: for any change there is a lawful suite that loads the record and refuses the change |
| Binding.PayloadBinds | src/keys/keyfile.rs:542-572 | the same for the payload's nonce |
| Binding.KindsBind | src/keys/manager.rs:388-398 | a record of one kind is refused where another kind is expected |
| Binding.BaseKeyBinds | src/crypto/kyberbox.rs:71-113 | for exchanges that differ in context, Diffie-Hellman secret, KEM secret, a public key or the ciphertext's hash there are lawful primitives under which the base keys differ |
| Binding.ScheduleBinds | src/hpke/schedule.rs:11-37 | the same for session key and base nonce in context, shared secret and info, and the two are kept apart |
| Binding.SetupBinds | src/hpke/session.rs:36-50 | the same for the session key of a whole set-up in all of its inputs |
| Binding.BlobBinds | src/crypto/aead.rs:63-109 | a blob is refused under another key, context, associated data or nonce, by a lawful suite that opens it under its own |
| Binding.BoxBindsAad | src/crypto/kyberbox.rs:220-261 | a box opened with other associated data is refused as not authentic |
| Binding.DualBindsReplyKey | src/crypto/kyberbox.rs:305-373 | a dual box with another reply key put in is refused as not authentic |

## Left out

- Runs in which a caller creates a file in a store that is not quiet: the safety theorems exclude exactly this step; what it does is stated in `RotationHazards`.
- RotationTheorems.CallersAgree: about callers that are not late; a late caller's load may fail or, without a law against it, open a record under the wrong key.
- RotationTheorems.GateConsistent: between a reported marker error and the next serving start or refresh, an idle, unpoisoned manager may have a pending directory or an old key in its cache.
- RotationTheorems.IdentityStable: `reload_public_keys` is one step under the write gate.
- KeyManager.Manager.Prepare: the marker is one step, so an error that leaves it behind is not among this procedure's outcomes; the state machine has it as `MarkReadyErr`, in every theorem about runs.
- KeyManager.Manager.GetOrCreate: one caller from gate to return; interleaved callers are steps of the state machine.
- StoreHistory.AgreesExactly: for runs of at most 2^64 - 1 calls, since a plain map has no version counter to run out.
- Fsync order and power loss: completed writes are durable in program order, and a rename, link or `store_mk` is one step.
- Order of rewrap targets: apply and staging loops take the files in any order, the source sorts them by path.
- File modes, symlink checks, temporary names, the lock file, `best-effort` modes and provider overrides of `get_or_create_secret32`.
- `rotate_loop` timing and `set_rotate_interval`; a rotation may begin whenever the gate is free.
- `signing_seeds`: loading the two seeds under the gate adds nothing to `RotationTheorems.GateConsistent`.
- The internals of AES-GCM-SIV, HKDF, SHA-256, X25519, ML-KEM and the signature schemes; `sign.rs`, `kdf.rs` parameter checks, `opaque`, `passwords`.
- The store's sealing of values under its own key and its hashing of key names: values and hashed names are taken as they are.
- `mmap`, page locking and process hardening; the arena works on a zeroed array, and its mutex only as a poisoned flag.
- The exporter secret of the HPKE key schedule beyond the length of its context.
- `SecretJson`, `SecretString`, `hexcodec`, error texts.
