# Verified model of the NCR-2 open firmware

This project models the parts of the open NCR-2 pedal firmware that have to be
right when something goes wrong, and proves what they promise. Its centre is the
A/B boot-and-update system: NOR flash that can lose power in any call, a
two-sector append log, the boot lifecycle and its retained trial mailbox, the
recovery engine with its retry cache, and the host client behind a lossy link.
Around it stand the USB audio ring, the allocation-free effect runtime and the
fixed-point effects.

`dafny verify dfyconfig.toml` checks everything.

## How it is layered

| files | what they model |
|---|---|
| `Words`, `Crc`, `Sha256` | byte strings, the reflected CRC-32, SHA-256 streaming against its specification |
| `BootState`, `Nor`, `Journal`, `JournalProofs`, `JournalOrder`, `JournalWear` | the durable state and its record, flash with faults, the append log, its guarantees over whole runs, exactly which stores it can order, what they cost the chip |
| `Trial`, `Image`, `Package`, `Devices`, `Lifecycle`, `Boot` | the mailbox, what counts as bootable and what the host packs, sample devices, the lifecycle calls, one boot as imperative code |
| `Protocol`, `EngineSpec`, `RecoveryEngine`, `EngineProofs`, `SessionNumbers` | reports, the engine as a function, the engine as the C struct updated in place, its invariants over any packets, and that an abandoned session stays out |
| `BootMachine`, `BootProofs`, `BootFaults`, `BootEntries`, `BootHistory`, `BootTrials` | the whole update system as a state machine with resets anywhere, and safety over its runs |
| `Sessions`, `Retry`, `Serving`, `Transfer`, `Client`, `Updates` | a session that goes through, copies of a report on a lossy link, reports that are sure to be answered, the flash behind them, the host client, a whole update from upload to confirmation |
| `UsbRing` | the ring, its rate control, and its two sides racing |
| `EffectRuntime`, `ProgramRuntime` | the effect arena, transactional program preparation, the library cursor |
| `DspMath`, `EffectSelection`, `Dsp`, `Echo` | fixed-point helpers, click-free program changes, all 32 effects, the echo over whole runs |

Code that the firmware writes as a struct updated through a pointer is a class
here, its methods proved against functions of the old state. `recovery_engine_t`
is held as one struct-valued field that the handlers update member by member.
`Boot.Bootloader` carries a ghost trace that records every boot as a path of
`BootMachine`, so what is proved of paths holds of the code.

## Assumptions

- A program call that is cut off clears some of the bits the full one would
  clear. A torn journal record is still erased, or complete, or does not decode:
  it never decodes to another state. A torn erase leaves each journal record as
  it was, erased or undecodable.
- Three kinds of flash are told apart: one that never fails, one that fails only
  by losing power, and one whose calls may also fail while the device runs on.
- The partition is the fixed one of firmware/platform/ncr2/include/ncr2_flash_layout.h.
- Retained words survive a reset unchanged; after a cold start they hold no valid
  token. A reset may come between any two word writes.
- Application images are read in place; RAM may or may not keep what is copied.
- The jump to the application is an event. Whether recovery was requested, the
  session seed, diagnostic bytes and every loss on the link are chosen freely.
- Effect callbacks write only inside their own context and may fail.
- C floats of the effect parameters are reals or not-a-number.

## What the code does that one might not expect

- **Recovery after a journal error does not protect the confirmed slot.** When the
  journal cannot be read, or a confirmation cannot be stored, the controller
  enters recovery with the default state or with a state that is not durable.
  docs/protocol/OPEN_RECOVERY_PROTOCOL.md:73 says an update never targets the
  confirmed slot; the engine compares with the state it was handed.
  `BootEntries.ReadErrorBricksADevice` gives a run. An entry is safe exactly when
  it confirms the same slot as the journal (`BootEntries.BootEntryProtectsIff`),
  with one region left aside: the default state beside a journal whose sequence
  lies between 0x80000002 and 2^32 - 8421504. There agreement is not enough
  (`BootEntries.LateDefault`), because the engine's first record, number 1, is
  accepted although it is a long step on. Power loss alone never breaks the
  guarantee (`BootFaults.NeverBrickedByPowerLoss`).
- **The journal accepts steps it cannot order.** It refuses only sequences that are
  not newer than the current one. `JournalOrder.StoreIsAtomicIff` says exactly
  which states a log can take; `JournalProofs.LongStepLosesTheStore` shows one it
  accepts, reports OK and loses. Every step up to 8421504 is safe on every log
  such steps have written, no larger bound is (`JournalOrder.StepBoundIsTight`), and
  each lifecycle transition steps by one.
- **The host's full restore never gets past its own check.** It demands a
  capability bit the engine never reports (`Client.RecoveryClient.RestoreFull`).
- **"On failure the chain is cleared"** (firmware/app/include/program_runtime.h)
  holds of an empty chain. A chain in use is refused and left as it is.
- **Two threshold products wrap** in unsigned 32 bits: the string ensemble's unless
  its amount is within 2730 of the top, the noise gate's from an amount of 103 on
  (`Dsp.BowThresholdIs`, `Dsp.GateThresholdIs`), so turning the gate up can lower
  its threshold. The bounds proved hold nevertheless. The limit on the auto-wah's
  envelope and the clamps on the effect and DAC outputs never act.
- **The reverse delay reads backward in time only half the time.** In the first
  half of each window its head reads what the line kept from its last time round
  (`Dsp.ReverseHead`), about 0.7 seconds earlier.

## Model

| member | source | states |
|---|---|---|
| Words.BytesEqual | firmware/bootloader/src/recovery_engine.c:30-41 | An accumulated difference is zero exactly when the two byte strings are equal |
| Crc.Compute | firmware/bootloader/src/crc32.c:3-18 | The nested byte and bit loops with the masked polynomial compute the reflected CRC-32 of the data |
| Crc.MaskedStep | firmware/bootloader/src/crc32.c:11-14 | The branch-free masked shift is the conditional one |
| Crc.BurstDetected | firmware/bootloader/src/crc32.c:3-18 | Two inputs that differ only inside a window of four bytes never share a CRC |
| BootState.RecordDecode | firmware/bootloader/src/boot_state.c:38-64 | Accepts a 32-byte record exactly when frame, field rules and CRC hold, and returns its fields |
| BootState.RecordEncode | firmware/bootloader/src/boot_state.c:66-82 | Writes the packed record, reserved bytes zero, sealed with the CRC of what precedes it |
| BootState.RoundTrip | firmware/bootloader/src/boot_state.c:38-82 | decode(encode(s)) is s when s is a state the journal may hold, and a refusal otherwise |
| BootState.DamageDetected | firmware/bootloader/src/boot_state.c:38-64 | Every valid record with up to four adjacent bytes altered, on one side of the header/CRC boundary, is refused |
| BootState.ErasedIsNotARecord | firmware/bootloader/src/boot_state.c:38-64 | Erased flash never decodes |
| BootState.BytesAreErased | firmware/bootloader/src/boot_state.c:17-25 | True exactly when every byte is 0xFF |
| BootState.StateVar.BeginUpdate | firmware/bootloader/src/boot_state.c:116-125 | The whole new state of beginning an update, and no change for the confirmed or an invalid slot |
| BootState.StateVar.RecordTrial | firmware/bootloader/src/boot_state.c:127-135 | One trial and one sequence step more, unless none is left |
| BootState.StateVar.ConfirmPending | firmware/bootloader/src/boot_state.c:137-146 | The pending slot becomes the confirmed one, one sequence step on |
| BootState.StateVar.Rollback | firmware/bootloader/src/boot_state.c:148-156 | The pending slot is dropped, one sequence step on |
| BootState.TransitionsKeepStates | firmware/bootloader/src/boot_state.c:116-156 | Every transition maps storable states to storable states, and none but confirmation moves the confirmed slot |
| BootState.ScanSector | firmware/bootloader/src/boot_state.c:84-96 | One pass carries the running newest state over the records of a sector |
| BootState.Scan | firmware/bootloader/src/boot_state.c:98-105 | Two sector images are scanned to the newest state of their records in order |
| BootState.FindAppendOffset | firmware/bootloader/src/boot_state.c:158-168 | Byte offset of the first blank record of a sector image |
| Nor.Flash.Read | firmware/bootloader/src/boot_journal.c:63-77 | A successful read returns the bytes in place; a failed one needs a fault or a bad range |
| Nor.Flash.Program | firmware/bootloader/src/boot_journal.c:192-220 | Programming only clears bits, in its range only; cut off, it leaves bytes between old and new |
| Nor.Flash.Erase | firmware/bootloader/src/boot_journal.c:266-321 | Erasing sets its range to 0xFF and touches nothing else; cut off, each record is as it was, blank or undecodable |
| Journal.FindAppendOffset | firmware/bootloader/src/boot_journal.c:79-107 | Reading record by record finds the first blank record, or reports the read error |
| Journal.Load | firmware/bootloader/src/boot_journal.c:109-163 | A successful load returns the newest state under wrap-around order and the place it was read from |
| Journal.VerifyRecord | firmware/bootloader/src/boot_journal.c:165-190 | OK exactly when the flash holds the expected record and it decodes |
| Journal.ProgramRecord | firmware/bootloader/src/boot_journal.c:192-220 | Whatever fails, only the one blank place changes, and to the new record or to none; OK means it is there |
| Journal.Rotate | firmware/bootloader/src/boot_journal.c:284-321 | Writes and verifies the record in the other, erased sector before it erases the full one |
| Journal.Advance | firmware/bootloader/src/boot_journal.c:266-321 | Appends in the active sector or rotates, with everything a fault may leave behind |
| Journal.Store | firmware/bootloader/src/boot_journal.c:222-322 | The effect on the log of every outcome (invalid, stale, equal, appended, rotated, failed), that all calls stay in the journal and program blank places only, and the exact call count without faults |
| JournalProofs.DominantIsNewest | firmware/bootloader/src/boot_journal.c:109-163 | A record newer than all others is the one the load settles on, wherever it stands |
| JournalProofs.NewestIsWindowMaximum | firmware/bootloader/src/boot_journal.c:109-163 | For distinct sequences inside a half-range window the load returns the unique maximum |
| JournalProofs.ScanReadsTheSameLog | firmware/bootloader/src/boot_state.c:98-105 | The record-at-a-time load and the image scan read the same log, so they return the same state |
| JournalProofs.PlacedIsNewest | firmware/bootloader/src/boot_journal.c:109-163 | In a log whose stale records trail the live ones by bounded steps, the last live record is what loads |
| JournalProofs.StoreIsAtomic | firmware/bootloader/src/boot_journal.c:222-322 | For steps up to 8421504: a store cut off anywhere makes the next load return the old or the new state, the new one if it reported OK, and the log stays one such steps can go on with for ever |
| JournalProofs.RunIsLinear | firmware/bootloader/src/boot_journal.c:222-322 | The same over any run of stores and faults with steps up to 8421504: the log loads as the last store that took effect, and every store that reported OK did |
| JournalProofs.LongStepLosesTheStore | firmware/bootloader/src/boot_journal.c:252-264 | A counterexample: a store the journal accepts and reports OK, but with a step of nearly half the range, is not what loads next |
| JournalOrder.SettlesIff | firmware/bootloader/src/boot_journal.c:109-163 | In any log the load settles on a given record exactly when it is newer than the choice made before it and no later record is newer than it |
| JournalOrder.AppendLoadsIff | firmware/bootloader/src/boot_journal.c:222-322 | An appended state is what loads next exactly when it is in the sector scanned last or no record of the other sector is newer than it |
| JournalOrder.RotateLoadsIff | firmware/bootloader/src/boot_journal.c:284-321 | After a rotation the new state is what loads exactly when it is newer than the choice among what the last erase left before it, or nothing left after it is newer |
| JournalOrder.StoreIsAtomicIff | firmware/bootloader/src/boot_journal.c:222-322 | For a log led by its newest record: over every fault the next load finds the old or the new state, and the new one after OK, if and only if a condition on the records before the call holds |
| JournalOrder.RunIsLinear | firmware/bootloader/src/boot_journal.c:222-322 | Over any run of stores and faults whose states are newer than the records they meet, with no bound on the step, the log loads as the last store that took effect |
| JournalOrder.ShortStepsTop | firmware/bootloader/src/boot_journal.c:252-264 | Steps up to 8421504 meet the exact condition on every log such steps have written |
| JournalOrder.StepBoundIsTight | firmware/bootloader/src/boot_journal.c:252-321 | That bound is the best one: 383 stores from a blank log with steps one longer all succeed, and the next one can be lost |
| JournalProofs.WearBound | firmware/bootloader/src/boot_journal.c:266-321 | n state-changing stores on a blank log cost exactly 2*((n-1)/128) sector erases |
| JournalWear.StoreAll | firmware/bootloader/src/boot_journal.c:252-320 | n calls of the store, each with a newer state, on a chip with a blank log: n programs of blank records and 2*((n-1)/128) erases in the calls the chip received |
| Trial.Mailbox.Clear | firmware/bootloader/src/boot_trial.c:35-44 | The four writes of a clear, or a prefix of them if a reset comes |
| Trial.Mailbox.Publish | firmware/bootloader/src/boot_trial.c:46-65 | A publish is a prefix of its eight writes, token word last |
| Trial.Mailbox.ArmConfirmation | firmware/bootloader/src/boot_trial.c:67-103 | Arming is a prefix of its three writes, or of a clear when there is no handoff |
| Trial.Mailbox.ConsumeConfirmation | firmware/bootloader/src/boot_trial.c:105-143 | Returns the confirmation that was there, and clears the mailbox whatever it held |
| Trial.ClearSilences | firmware/bootloader/src/boot_trial.c:35-44 | A clear cut off after any write leaves a mailbox that says nothing |
| Trial.PublishIsAtomic | firmware/bootloader/src/boot_trial.c:46-65 | A publish cut off anywhere confirms nothing, and hands off its own token only when complete |
| Trial.ArmIsAtomic | firmware/bootloader/src/boot_trial.c:67-103 | Arming cut off anywhere confirms nothing until its last write, then exactly what was handed off |
| Sha256.Context.Transform | firmware/bootloader/src/sha256.c:59-127 | One call is the compression function of section 6.2.2 of FIPS 180-4 on the buffer |
| Sha256.Context.Update | firmware/bootloader/src/sha256.c:143-164 | However a message is split into updates, the state is the fold over its whole blocks and the buffer its tail |
| Sha256.Context.Final | firmware/bootloader/src/sha256.c:166-191 | The digest is the hash of everything fed in, padded as in section 5.1.1 of FIPS 180-4, for every message below 2^61 bytes |
| Image.ManifestIsValid | firmware/bootloader/src/bootloader.c:60-80 | The manifest check of the bootloader, CRC included |
| Image.PayloadHashIsValid | firmware/bootloader/src/bootloader.c:82-92 | True exactly when the payload has the manifest's SHA-256 |
| Image.LoadSlot | firmware/bootloader/src/bootloader.c:127-173 | A slot is refused exactly when it is not bootable; success means the copy in RAM has the manifest's hash |
| Package.HeaderFields | tools/open_image.py:206-243 | Every manifest field the host packs is where the bootloader reads it, sealed with the CRC of what precedes it |
| Package.PackedImageBoots | tools/open_image.py:206-263 | A slot that starts with a packed image boots exactly when the payload holds two valid vectors: the host packs others too, and the bootloader refuses those |
| Package.SmallestImageIsValid | tools/open_image.py:246-263 | A payload of just a stack pointer and a reset handler makes a bootable slot |
| Image.BootableElsewhere | firmware/bootloader/src/bootloader.c:127-149 | What makes a slot bootable depends on that slot's bytes only |
| Protocol.ResolveRange | firmware/bootloader/src/recovery_protocol.c:79-100 | A range resolves exactly when it is non-empty and inside a slot, to that slot's flash offset |
| Protocol.HostRoundTrip | tools/pedalctl.py:137-222 | What the host encodes the device accepts, and it decodes to the same packet |
| Protocol.PackRoundTrip | tools/pedalctl.py:34 | The 64-byte layout read back gives the same fields |
| Protocol.FinalizedIsValid | firmware/bootloader/src/recovery_protocol.c:28-77 | A finalized report passes validation |
| RecoveryEngine.Device.constructor | firmware/bootloader/src/recovery_engine.c:685-707 | A fresh engine: idle, no session, no cached reply, a non-zero seed |
| RecoveryEngine.Device.EnableFullFlash | firmware/bootloader/src/recovery_engine.c:709-715 | Sets the permission and drops the cached reply |
| RecoveryEngine.Device.Begin | firmware/bootloader/src/recovery_engine.c:375-401 | Refuses the confirmed and the active slot and bad sizes; otherwise binds a new session to the slot |
| RecoveryEngine.Device.BeginFullFlash | firmware/bootloader/src/recovery_engine.c:403-434 | Refuses without permission, unlock or the exact size; otherwise binds a session to the digest |
| RecoveryEngine.Device.EraseSlot | firmware/bootloader/src/recovery_engine.c:436-465 | Erases the declared size rounded up to sectors, in the target slot; on failure the engine is as it was |
| RecoveryEngine.Device.EraseFullFlash | firmware/bootloader/src/recovery_engine.c:467-501 | Erases the next 64 KiB piece in order and reports progress |
| RecoveryEngine.Device.Write | firmware/bootloader/src/recovery_engine.c:503-530 | Programs the payload at the next offset of the target, in order; on failure the engine is as it was |
| RecoveryEngine.Device.Read | firmware/bootloader/src/recovery_engine.c:532-555 | Returns the bytes of a range inside the target |
| RecoveryEngine.Device.HashRange | firmware/bootloader/src/recovery_engine.c:266-284 | 32-byte reads fed to one streaming hash give the hash of the whole range |
| RecoveryEngine.Device.ValidateStoredImage | firmware/bootloader/src/recovery_engine.c:222-292 | OK exactly when the target slot satisfies the bootloader's own manifest, vector and hash checks on bytes this session wrote |
| RecoveryEngine.Device.FinalizeImage | firmware/bootloader/src/recovery_engine.c:557-570 | Finalizes exactly a complete, valid image |
| RecoveryEngine.Device.FinalizeFullFlash | firmware/bootloader/src/recovery_engine.c:572-616 | Finalizes exactly when the hash of the whole flash is the one bound at the beginning |
| RecoveryEngine.Device.SetPending | firmware/bootloader/src/recovery_engine.c:618-638 | Makes the pending record durable before the engine believes it |
| RecoveryEngine.Device.Dispatch | firmware/bootloader/src/recovery_engine.c:640-683 | Every command goes to its handler, every other is refused |
| RecoveryEngine.Device.Process | firmware/bootloader/src/recovery_engine.c:717-800 | Validation, retry cache, session gate, handler and commit, as one step of the engine |
| EngineProofs.ProcessIsSound | firmware/bootloader/src/recovery_engine.c:717-800 | The invariant of phases, targets, offsets and sessions survives every packet |
| EngineProofs.FreshIsSound | firmware/bootloader/src/recovery_engine.c:685-707 | It holds of a fresh engine, whose seed is the one given, or the default for zero |
| EngineProofs.RejectedChangesNothing | firmware/bootloader/src/recovery_engine.c:737-800 | A packet that is not accepted changes no engine state |
| EngineProofs.SessionsStaySeparate | firmware/bootloader/src/recovery_engine.c:747-784 | Slot commands and whole-flash commands are never let into each other's sessions |
| EngineProofs.SlotActionsConfined | firmware/bootloader/src/recovery_engine.c:436-530 | Every flash range a slot session touches is inside its target, which is neither confirmed nor active, and after FINALIZE only the journal is touched |
| EngineProofs.VouchedIsKept | firmware/bootloader/src/recovery_engine.c:557-638 | In every FINALIZED or PENDING phase the target is bootable, or the whole flash has the bound digest; no packet breaks that |
| EngineProofs.EveryRunIsTrusted | firmware/bootloader/src/recovery_engine.c:717-800 | All of this over every run of packets with any backend faults |
| EngineProofs.ContentIsKept | firmware/bootloader/src/recovery_engine.c:436-530 | While the backend works, flash below the write offset is the accepted payloads in order and the rest of the erased span is 0xFF |
| EngineProofs.EveryRunHoldsItsContent | firmware/bootloader/src/recovery_engine.c:436-530 | The same over every run |
| EngineProofs.CacheStaysCurrent | firmware/bootloader/src/recovery_engine.c:737-745 | A cached GET_INFO reply equals the reply that would be computed now |
| EngineProofs.RetryIsIdempotent | firmware/bootloader/src/recovery_engine.c:737-745 | An exact repeat of the last accepted packet gets the same reply and does nothing |
| EngineProofs.FullFlashOrder | firmware/bootloader/src/recovery_engine.c:467-616 | A whole-flash session erases front to back, writes only after the last erase, finalizes only the bound digest and reboots only then |
| EngineProofs.FullFlashErasesTile | firmware/bootloader/src/recovery_engine.c:467-501 | The accepted erases of one session tile the chip with no gap and no overlap |
| Lifecycle.Prepare | firmware/bootloader/src/boot_lifecycle.c:34-72 | Selects the slot to boot after making a trial or a rollback durable, with the outcome of every failure |
| Lifecycle.Confirm | firmware/bootloader/src/boot_lifecycle.c:74-97 | Confirms the running slot durably if it is the pending one |
| Lifecycle.RejectPending | firmware/bootloader/src/boot_lifecycle.c:99-118 | Drops the pending slot durably |
| Lifecycle.StepIsAccepted | firmware/bootloader/src/boot_journal.c:237-264 | The journal refuses no state one step on from its own |
| Boot.Bootloader.Run | firmware/bootloader/src/boot_controller.c:55-169 | Every boot is a path of the boot state machine that ends in a checked and copied image, in recovery with the state it reports, or at power loss; a forced boot leaves the flash alone, reports a confirmation as ignored and hands on the journal's state or, after a read error, the default one; without faults it confirms, records, selects and falls back exactly as the journal, the token and the images decide, and from a safe start with a reliable chip it hands off |
| Boot.Bootloader.Boot | firmware/bootloader/src/bootloader.c:253-270 | The controller and then the handoff: the selected slot runs with its image copied, on trial exactly if it is pending, with its own token in the mailbox, or with a mailbox that says nothing |
| Updates.UploadThenBoot | tools/pedalctl.py:970-1003 | After an upload that returned, the next boot without faults and without a recovery request runs the uploaded image as a recorded trial; from a device that welcomes the image the upload returns unless retries + 1 tries in a row were lost |
| Updates.ArmThenBoot | firmware/bootloader/src/boot_trial.c:67-102 | After the application on trial armed its confirmation, the next boot without faults confirms its slot and runs it for good |
| Updates.Update | firmware/bootloader/src/boot_controller.c:55-169 | Upload, trial and confirmation in a row: the image the host sent is the confirmed one, and from a device that welcomes it only retries + 1 lost tries in a row keep the update from starting |
| Boot.Bootloader.ConsumeStage | firmware/bootloader/src/boot_controller.c:73-80 | Reads the confirmation and clears the mailbox before anything else |
| Boot.Bootloader.ConfirmStage | firmware/bootloader/src/boot_controller.c:98-124 | Confirms durably only a token for the pending slot at the journal's sequence |
| Boot.Bootloader.PrepareStage | firmware/bootloader/src/boot_controller.c:126-136 | The durable trial record or rollback comes before any load |
| Boot.Bootloader.FirstStage | firmware/bootloader/src/boot_controller.c:138-162 | Loads the selected slot, or rejects it durably if it was on trial, or turns to the other slot |
| Boot.Bootloader.HandOffStage | firmware/bootloader/src/boot_handoff.c:5-38 | The handoff step of the machine: mailbox first, watchdog exactly on trial |
| Boot.HandoffPrepare | firmware/bootloader/src/boot_handoff.c:5-38 | Publishes the token exactly for a loaded pending slot and clears the mailbox otherwise |
| BootProofs.StoreKeeps | firmware/bootloader/src/boot_journal.c:222-322 | Seen from the whole flash a store moves between two journal states and changes no slot's bootability |
| BootProofs.NeverBricked | firmware/bootloader/src/boot_controller.c:55-169 | From a safe start the confirmed slot stays bootable in every run of boots, trials, confirmations, recovery sessions, resets and faults in which recovery is entered in agreement with the journal |
| BootFaults.NeverBrickedByPowerLoss | firmware/bootloader/src/boot_controller.c:55-169 | Without errors of a running backend, power loss at any flash call and any mailbox write included, no hypothesis on recovery entries is needed |
| BootFaults.EntryProtectsIffConfirmedAgrees | firmware/bootloader/src/recovery_engine.c:375-401 | At a recovery entry: if the state handed over names another confirmed slot than the journal, some packets make the confirmed slot unbootable; if it names the same and its next record is a short step on, no packets and faults can |
| BootEntries.EveryEntrySteps | firmware/bootloader/src/boot_controller.c:55-169 | Whatever fails on the way in, recovery is entered with the default state or with one whose next record is a short step on |
| BootEntries.DefaultStepsIff | firmware/bootloader/src/boot_state.c:27-36 | The default state's first record is a short step on exactly unless the journal's sequence lies between 0x80000002 and 2^32 - 8421504 |
| BootEntries.BootEntryProtectsIff | firmware/bootloader/src/recovery_engine.c:375-401 | For every way a boot enters recovery, but for the default state beside such a late journal: the confirmed slot survives all packets and faults if and only if the entry confirms the journal's slot |
| BootEntries.LateDefault | firmware/bootloader/src/boot_journal.c:252-264 | A counterexample there: the default state agrees with a late journal, and one whole update over a working backend surfaces an older record and then erases the slot it confirms |
| BootEntries.ReadErrorBricksADevice | firmware/bootloader/src/boot_controller.c:82-96 | A device in order whose confirmed slot B one failed journal read and two reports destroy |
| BootEntries.ADeviceOnSlotB | firmware/bootloader/src/boot_state.c:38-82 | A safe world whose journal confirms slot B exists |
| Sessions.SessionGoesThrough | firmware/bootloader/src/recovery_engine.c:375-570 | A host that sends a complete image in order over a working backend always brings the engine to FINALIZED, with the image in the slot and nothing else changed |
| Sessions.PendingGoes | firmware/bootloader/src/recovery_engine.c:618-638 | SET_PENDING after that is always taken |
| BootFaults.ReadErrorCanBrick | firmware/bootloader/src/boot_controller.c:82-96 | A counterexample: forced recovery whose one journal read fails starts from the default state, and two ordinary reports erase the confirmed slot B |
| BootFaults.UnprotectedSlotCanBeErased | firmware/bootloader/src/recovery_engine.c:375-465 | Any slot the engine does not take for confirmed or active can be erased by two packets |
| BootHistory.ConfirmationsAreEarned | firmware/bootloader/src/boot_controller.c:73-124 | In every run each durable confirmation directly follows the trial handoff, the arming and the reading back of that token |
| BootHistory.TokensAreUsedOnce | firmware/bootloader/src/boot_trial.c:105-143 | Two confirmations never share a handoff |
| BootTrials.HandOffIsHonest | firmware/bootloader/src/boot_handoff.c:16-36 | An application is handed off as a trial exactly when its slot is pending, at the journal's own sequence, and only if it boots |
| BootTrials.TrialsAreBounded | firmware/bootloader/src/boot_lifecycle.c:34-72 | Per update begun, trial handoffs never exceed the recorded trials, nor three (or the limit the journal started with), in every run |
| BootTrials.PreparesUseTheMeasureUp | firmware/bootloader/src/boot_lifecycle.c:34-72 | Trials left plus one falls with every completed prepare, and nothing but a report that begins an update gives any back |
| BootTrials.ConfirmedMovesOnlyIfEarned | firmware/bootloader/src/boot_controller.c:98-124 | The confirmed slot changes only by a confirmation whose handoff and arming directly precede it, at the journal's sequence |
| BootTrials.ShippedDeviceStartsWell | firmware/bootloader/src/boot_state.c:27-36 | A device with an empty journal and a bootable slot A meets every hypothesis the run theorems make of their start |
| BootTrials.ADeviceCanBeShipped | tools/open_image.py:246-263 | Such a device exists: erased flash with the smallest packed image at slot A, so the run theorems are not empty |
| Retry.CopiesExecuteOnce | tools/pedalctl.py:436-467 | However many copies of a report arrive and whatever fails, at most one is accepted; once a copy is answered with OK exactly one was, unless it already was the last accepted report |
| Retry.SaneStep | firmware/bootloader/src/recovery_engine.c:737-800 | The retry cache always holds the last accepted packet of the current session |
| Transfer.WriteArrives | firmware/bootloader/src/recovery_engine.c:503-530 | A write once answered is whole in the flash after everything written before, even over pieces torn by failed attempts |
| Transfer.EraseArrives | firmware/bootloader/src/recovery_engine.c:436-465 | An erase once answered leaves the whole declared range erased |
| Transfer.FinalizeArrives | firmware/bootloader/src/recovery_engine.c:557-570 | A finalize once answered has changed nothing but the phase |
| Transfer.PendingArrives | firmware/bootloader/src/recovery_engine.c:618-638 | SET_PENDING once answered is what the journal loads, with all trials left, and the slot is untouched |
| Transfer.BeginArrives | firmware/bootloader/src/recovery_engine.c:375-434 | The reply names the session the engine is in, whichever copy began it |
| Transfer.FullEraseArrives | firmware/bootloader/src/recovery_engine.c:467-501 | A piece of a whole-chip erase once answered is erased, and nothing beyond it is touched |
| Transfer.EntryIsHealthy | firmware/bootloader/src/recovery_engine.c:685-707 | A recovery entry with the journal's own state meets the hypotheses of the client theorems |
| Client.Link.Exchange | tools/pedalctl.py:337-339 | A lossy link: the request, the reply or neither is lost; what came back of every try is recorded |
| Client.RecoveryClient.Exchange | tools/pedalctl.py:436-467 | The retry loop, exactly: up to retries + 1 copies of one report go out, the first reply that decodes ends it and is judged, and without one it gives up after the last; the device has executed at most one copy. If the device is sure to answer, it fails only when nothing came back of all retries + 1 tries |
| Client.RecoveryClient.SessionCommand | tools/pedalctl.py:536-555 | When it returns both sides expect the same next command; if they agreed before, the device executed it exactly once. A command the device is sure to take ends executed, or given up on after retries + 1 tries lost in a row |
| Client.RecoveryClient.GetInfo | tools/pedalctl.py:469-471 | What it returns is the engine's present boot state, cached or not |
| Client.RecoveryClient.Begin | tools/pedalctl.py:481-506 | When it returns the client knows the engine's session and both are at sequence one |
| Client.RecoveryClient.Erase | tools/pedalctl.py:557-558 | When it returns the target's declared range is erased |
| Client.RecoveryClient.Write | tools/pedalctl.py:600-622 | When it returns the flash holds the image in order, and each piece was executed exactly once, from any offset and for any piece size |
| Client.RecoveryClient.Finalize | tools/pedalctl.py:633-634 | When it returns the image is finalized and the flash unchanged |
| Client.RecoveryClient.SetPending | tools/pedalctl.py:639-640 | When it returns the journal's pending slot is the target and the slot is unchanged |
| Client.RecoveryClient.ChooseTarget | tools/pedalctl.py:976-989 | Never the confirmed or the selected slot, and an error only for such a slot or an unknown confirmed one |
| Client.RecoveryClient.Upload | tools/pedalctl.py:970-1003 | A returning upload has left the image in the target slot, bootable and pending with all trials left, and the device has executed the reports of the session exactly once each, in order. On a device that welcomes it, an upload fails only if nothing came back of retries + 1 tries in a row |
| Client.RecoveryClient.Reboot | tools/pedalctl.py:642-661 | Changes no flash; acknowledged, or taken for done when the device is gone |
| Client.RecoveryClient.UploadAndReboot | tools/pedalctl.py:970-1003 | However the final reboot goes, a slot once offered stays pending with the image in it; on a device that welcomes the image one is offered unless retries + 1 tries in a row were lost |
| Client.RecoveryClient.BeginFullFlash | tools/pedalctl.py:508-534 | When it returns a whole-flash session is bound to the digest and the flash unchanged |
| Client.RecoveryClient.EraseFullFlash | tools/pedalctl.py:560-598 | When it returns the first bytes up to the limit are erased and the rest is untouched |
| Client.RecoveryClient.HandoffToRom | tools/pedalctl.py:1144-1190 | When it returns exactly the boot region is erased |
| Client.RecoveryClient.RestoreFull | tools/pedalctl.py:1059-1081 | Against this engine it always stops at its capability check, before it erases anything |
| Client.Advertised | tools/pedalctl.py:1024-1051 | Every capability bit of the report, in terms of what the engine can do |
| UsbRing.Ring.Push | firmware/hardware_app/src/usb_audio_ring.c:18-35 | A FIFO of 1023 frames that drops the newest and counts the drop |
| UsbRing.Ring.Available | firmware/hardware_app/src/usb_audio_ring.c:37-47 | The length of the queue |
| UsbRing.Ring.Packet | firmware/hardware_app/src/usb_audio_ring.c:59-98 | Takes frames from the front in order, fills up with silence, counts a dry packet, and refuses a short buffer without effect |
| UsbRing.Ring.StorePcm24 | firmware/hardware_app/src/usb_audio_ring.c:49-57 | Three bytes in place, nothing else in the packet |
| UsbRing.PcmIsSample | firmware/hardware_app/src/usb_audio_ring.c:49-57 | A host reads every sample back truncated toward zero to 24 bits |
| UsbRing.DriftIsAbsorbed | firmware/hardware_app/src/usb_audio_ring.c:59-98 | If every packet interval captures 47 to 49 frames nothing is dropped, only the starting packet can run dry, at most 97 frames wait, and sent plus waiting is exactly what was captured, in order |
| UsbRingRace.EveryInterleavingIsFifo | firmware/hardware_app/src/usb_audio_ring.c:18-98 | Under every interleaving of single loads and stores of one producer and one consumer, what is taken is what was pushed, in order, whole and once |
| UsbRingRace.DropsOnlyWhenFull | firmware/hardware_app/src/usb_audio_ring.c:24-31 | A frame is dropped only when 1023 wait at that moment |
| EffectRuntime.DescriptorIsValid | firmware/app/src/effect_runtime.c:14-61 | Accepts exactly the descriptors the registry rules allow, distinct parameter ids included |
| EffectRuntime.RegistryValidate | firmware/app/src/effect_runtime.c:96-122 | OK exactly when every descriptor is valid and no key repeats |
| EffectRuntime.Find | firmware/app/src/effect_runtime.c:124-142 | A descriptor with the key, or none has it |
| EffectRuntime.FindParameter | firmware/app/src/effect_runtime.c:144-162 | A parameter with the id, or none has it |
| EffectRuntime.Chain.constructor | firmware/app/src/effect_runtime.c:164-200 | An empty chain over a valid registry |
| EffectRuntime.Chain.Add | firmware/app/src/effect_runtime.c:202-275 | All or nothing: one more instance at its defaults in an aligned context of its own, or no change; no byte of another context is touched |
| EffectRuntime.Chain.Clear | firmware/app/src/effect_runtime.c:291-304 | An empty chain and an empty arena |
| EffectRuntime.Chain.SetParameter | firmware/app/src/effect_runtime.c:332-370 | Judges index, parameter and range, and changes one parameter of one instance |
| EffectRuntime.ContextsAreDisjoint | firmware/app/src/effect_runtime.c:225-274 | In every reachable chain an address belongs to at most one context, inside the used arena |
| EffectRuntime.AlignUp | firmware/app/src/effect_runtime.c:225-230 | The next aligned address, less than one alignment away |
| EffectRuntime.DefaultsAreTheirs | firmware/app/src/effect_runtime.c:249-258 | Every parameter starts at its own default and nothing else is set |
| ProgramRuntime.DescriptorValidate | firmware/app/src/program_runtime.c:3-60 | OK exactly when every node's effect and overrides are valid and no override repeats |
| ProgramRuntime.Prepare | firmware/app/src/program_runtime.c:230-289 | An empty chain ends up carrying out the whole program, node by node, each parameter at its override or else its default, or ends up empty; if no callback fails, exactly the valid programs it has room for are carried out; a used chain is left alone |
| ProgramRuntime.AddAll | firmware/app/src/program_runtime.c:255-288 | The nodes of a valid program are all added and set, whenever no callback fails and there is room |
| ProgramRuntime.UsedGrows | firmware/app/src/effect_runtime.c:202-235 | The arena a program needs grows with each of its nodes |
| ProgramRuntime.AskedIsListed | firmware/app/src/program_runtime.c:266-284 | Each override of a valid node is the value its parameter ends up with |
| ProgramRuntime.CatalogValidate | firmware/app/src/program_runtime.c:88-123 | OK exactly when every program is valid and no key repeats |
| ProgramRuntime.LibraryValidate | firmware/app/src/program_runtime.c:146-207 | OK exactly when catalog and banks are valid and name existing programs |
| ProgramRuntime.EveryPositionIsAProgram | firmware/app/src/program_runtime.c:312-329 | In a library that validates every cursor position names a program whose description is valid |
| ProgramRuntime.Cursor.Current | firmware/app/src/program_runtime.c:312-329 | The program at the position, or none off the banks |
| ProgramRuntime.Cursor.NextProgram | firmware/app/src/program_runtime.c:331-349 | One program on, round the bank |
| ProgramRuntime.Cursor.PreviousProgram | firmware/app/src/program_runtime.c:351-371 | Undoes NextProgram |
| ProgramRuntime.Cursor.NextBank | firmware/app/src/program_runtime.c:373-389 | One bank on, at its first program |
| ProgramRuntime.Cursor.PreviousBank | firmware/app/src/program_runtime.c:391-409 | One bank back, at its first program |
| ProgramRuntime.Cursor.SelectBank | firmware/app/src/program_runtime.c:411-439 | Succeeds exactly if the first bank with the key has the program, and is there then; otherwise no change |
| DspMath.Div | firmware/hardware_app/src/main.c:853-855 | C's division toward zero |
| DspMath.LowPass | firmware/hardware_app/src/main.c:842-858 | The filter never leaves the interval between its state and its input |
| DspMath.BlendIsBetween | firmware/hardware_app/src/main.c:860-873 | A blend of safe samples lies between them |
| DspMath.Soft | firmware/hardware_app/src/main.c:898-908 | The soft knee is odd, below the identity and below the safe peak |
| DspMath.Shape | firmware/hardware_app/src/main.c:875-922 | The drive curve keeps the sign and the safe peak for every gain up to 128 |
| EffectSelection.ChangesAtZero | firmware/hardware_app/src/main.c:1059-1083 | The effect changes only as the ramp reaches zero, and the ramp moves by at most 128 |
| EffectSelection.ChangesAreClickFree | firmware/hardware_app/src/main.c:1059-1083 | In every request sequence the output of a frame that changes the effect does not depend on the processed signal |
| EffectSelection.SteadyRequestArrives | firmware/hardware_app/src/main.c:1059-1083 | A request held for 512 frames is selected at full level, from any state |
| EffectSelection.OutputNeverClips | firmware/hardware_app/src/main.c:2098-2123 | The output stage never needs its clamp |
| EffectSelection.Quantize | firmware/hardware_app/src/main.c:598-614 | The first of the nearest detents |
| EffectSelection.TypeKnob.Update | firmware/hardware_app/src/main.c:616-654 | The position moves only to a clearly nearer detent, on the third such reading in a row |
| EffectSelection.NoiseStaysPut | firmware/hardware_app/src/main.c:616-654 | Readings within 318 counts of the detent in use never move it |
| Dsp.MakeParameters | firmware/hardware_app/src/main.c:1085-1132 | Every knob position gives parameters in the ranges the effects rely on |
| Dsp.Processor.constructor | firmware/hardware_app/src/main.c:1041-1057 | Zeroed state, full selector ramp, an effect in range |
| Dsp.Processor.HighpassInput | firmware/hardware_app/src/main.c:826-840 | The offset estimate moves by a 1024th of the difference, and stays between what it was and the input |
| Dsp.Processor.ShapeDrive | firmware/hardware_app/src/main.c:875-931 | The tone state stored without a clamp stays within the safe peak |
| Dsp.Processor.Tap | firmware/hardware_app/src/main.c:1211-1223 | A delay tap of distance d reads the sample written exactly d processed frames before |
| Dsp.Processor.Record | firmware/hardware_app/src/main.c:2086-2092 | The delay line moves on by one clamped sample |
| Dsp.Processor.Convolve | firmware/hardware_app/src/main.c:995-1005 | The newest value goes into the ring and the sum is the voice's impulse response over the last eight values, far inside 64 bits |
| Dsp.Processor.AmpVoice | firmware/hardware_app/src/main.c:939-1014 | One frame in full: pre-filter, emphasis, drive curve, cabinet convolution and mix as functions of the memory before and the input |
| Dsp.Processor.ShineDrive | firmware/hardware_app/src/main.c:1156-1181 | One frame in full: the output and the new filter and oscillator state as functions of the state before, the input and the line; no narrowing loses anything; output at most half the safe peak |
| Dsp.Processor.WallFuzz | firmware/hardware_app/src/main.c:1183-1209 | One frame in full: the output and the new filter and oscillator state as functions of the state before, the input and the line; no narrowing loses anything; output at most a quarter of the safe peak |
| Dsp.Processor.BreatheVibe | firmware/hardware_app/src/main.c:1211-1249 | One frame in full: the output and the new filter and oscillator state as functions of the state before, the input and the line; no narrowing loses anything; gain at most one |
| Dsp.Processor.EchoesTape | firmware/hardware_app/src/main.c:1251-1305 | One frame in full: the filter step over the mean of the two heads, the mix that is heard, and the feedback that is written, in terms of what was written that many frames before |
| Dsp.Processor.RageDrive | firmware/hardware_app/src/main.c:1307-1343 | One frame in full: the output and the new filter and oscillator state as functions of the state before, the input and the line; no narrowing loses anything; output at most a quarter of the safe peak |
| Dsp.Processor.CockedWah | firmware/hardware_app/src/main.c:1345-1405 | One frame in full: the output and the new filter and oscillator state as functions of the state before, the input and the line; no narrowing loses anything; filter states within four safe peaks |
| Dsp.Processor.StudioComp | firmware/hardware_app/src/main.c:1407-1443 | One frame in full: the output and the new filter and oscillator state as functions of the state before, the input and the line; no narrowing loses anything; the sign is kept and everything stays inside 64 bits |
| Dsp.Processor.OctaveFuzz | firmware/hardware_app/src/main.c:1445-1466 | One frame in full: the output and the new filter and oscillator state as functions of the state before, the input and the line; no narrowing loses anything |
| Dsp.Processor.StringEnsemble | firmware/hardware_app/src/main.c:1468-1549 | One frame in full: the output and the new filter and oscillator state as functions of the state before, the input and the line; no narrowing loses anything; it writes the harmonized voice, and the bow gain stays between zero and one whatever the threshold wraps to |
| Dsp.Processor.NoiseGate | firmware/hardware_app/src/main.c:1551-1582 | One frame in full: the output and the new filter and oscillator state as functions of the state before, the input and the line; no narrowing loses anything; never louder than its input and of the same sign, whatever the threshold wraps to |
| Dsp.Processor.GuerrillaTrem | firmware/hardware_app/src/main.c:1584-1612 | One frame in full: the output and the new filter and oscillator state as functions of the state before, the input and the line; no narrowing loses anything; never louder than its input |
| Dsp.Processor.DimensionChorus | firmware/hardware_app/src/main.c:1614-1646 | One frame in full: the output and the new filter and oscillator state as functions of the state before, the input and the line; no narrowing loses anything; both voices are taps inside the line |
| Dsp.Processor.JetFlanger | firmware/hardware_app/src/main.c:1648-1672 | One frame in full: the mix with the moving tap that is heard, and the feedback that is written |
| Dsp.Processor.PhaseOrbit | firmware/hardware_app/src/main.c:1674-1709 | One frame in full: the output and the new filter and oscillator state as functions of the state before, the input and the line; no narrowing loses anything; the signal stays in 32 bits through all four stages |
| Dsp.Processor.RotaryCab | firmware/hardware_app/src/main.c:1711-1745 | One frame in full: the output and the new filter and oscillator state as functions of the state before, the input and the line; no narrowing loses anything; both gains stay positive |
| Dsp.Processor.AutoWah | firmware/hardware_app/src/main.c:1747-1792 | One frame in full: the output and the new filter and oscillator state as functions of the state before, the input and the line; no narrowing loses anything; the envelope is never negative where it is read as unsigned |
| Dsp.Processor.WhammyFuzz | firmware/hardware_app/src/main.c:1794-1862 | One frame in full: the output and the new filter and oscillator state as functions of the state before, the input and the line; no narrowing loses anything; the two heads weigh what WindowsAddUp says |
| Dsp.Processor.DigitalDelay | firmware/hardware_app/src/main.c:1864-1884 | What is heard and what is written, in terms of what was written RepeatTime frames before |
| Dsp.Processor.AnalogDelay | firmware/hardware_app/src/main.c:1886-1908 | One frame in full: the filter step over the tap, the mix that is heard, and the feedback that is written, in terms of what was written that many frames before |
| Dsp.Processor.HallReverb | firmware/hardware_app/src/main.c:1938-1973 | One frame in full: the filter step over the mean of four taps, the mix that is heard, and the feedback that is written, in terms of what was written that many frames before |
| Dsp.Processor.ShimmerSpace | firmware/hardware_app/src/main.c:2010-2043 | One frame in full: the filter step over the mean of two moving taps, the mix that is heard, and the feedback that is written, in terms of what was written that many frames before |
| Dsp.Processor.SpringTank | firmware/hardware_app/src/main.c:2045-2079 | One frame in full: the splash of three taps less its body, as heard and as fed back |
| Dsp.WindowsAddUp | firmware/hardware_app/src/main.c:1796-1809 | The two whammy windows always add up to 65534 |
| Dsp.ReverseFits | firmware/hardware_app/src/main.c:1910-1919 | The index of the reverse head does not wrap |
| Dsp.Processor.ProcessSelected | firmware/hardware_app/src/main.c:1134-2096 | The pair of values the selected effect returns, each a function of its memory, the line, the input and the parameters; the output needs no clamp, the line moves on by exactly the written one, and that is the input itself for every effect without feedback |
| Dsp.Processor.UpdateEffectSelection | firmware/hardware_app/src/main.c:1059-1083 | The selection step, with the transient state reset exactly on a change |
| Dsp.Processor.ProcessFrame | firmware/hardware_app/src/main.c:2144-2199 | One frame: the high-passed input, the selected effect or a bypass that leaves memory and line alone, ramps, selection and output within the DAC peak; a frame that changes the effect carries clean signal only and clears the memory |
| Dsp.BowThresholdIs | firmware/hardware_app/src/main.c:1485-1491 | The bow threshold in closed form; it is the intended one exactly while the amount is within 2730 of its top |
| Dsp.GateThresholdIs | firmware/hardware_app/src/main.c:1562-1566 | The gate threshold in closed form; it is the intended one exactly up to an amount of 102 |
| Dsp.GateThresholdFalls | firmware/hardware_app/src/main.c:1562-1566 | Turning the gate up from 102 to 103 lowers its threshold |
| Dsp.Processor.ProcessBlock | firmware/hardware_app/src/main.c:2125-2202 | With parameters made from the clamped knobs, a block selects as its requests say, writes one safe value to all slots of each frame, and moves the meter to the loudest input |
| Dsp.Processor.CaptureFrame | firmware/hardware_app/src/main.c:726-746 | The loudest slot, the first of equals |
| BootState.RecordIsTheTable | firmware/bootloader/src/boot_state.c:38-64 | The records that decode, byte by byte: four ways to be confirmed and pending, and a trial limit of at least one that is not overrun |
| EngineProofs.GateIsTheTable | firmware/bootloader/src/recovery_engine.c:747-784 | The session gate as a table: which session, sequence and flags each command needs |
| Crc.CheckValue | firmware/bootloader/src/crc32.c:3-18 | The published check value of the IEEE CRC-32 for the digits one to nine |
| Package.ManifestValidIsPacked | firmware/bootloader/src/bootloader.c:60-80 | The manifest check accepts a header exactly if it is the packed one, byte for byte, for its own size, version, build and digest, with the size in range |
| Package.VectorsValidArePacked | firmware/bootloader/src/bootloader.c:94-114 | The vector check accepts exactly an 8-aligned stack in DTCM and an odd address whose even part lies inside the loaded image |
| Package.BootableIsPacked | tools/open_image.py:206-263 | A slot boots exactly if it starts with an image the host packs for that payload, with two valid vectors |
| Protocol.ValidBytes | firmware/bootloader/src/recovery_protocol.c:28-77 | A report is valid exactly if its first fields are right, its length fits and both checksums are those of the bytes they cover |
| Protocol.DamageIsRefused | firmware/bootloader/src/recovery_protocol.c:28-77 | A valid report with up to four adjacent bytes altered, in the header, its checksum or the payload in use, is refused |
| Protocol.PaddingIsIgnored | firmware/bootloader/src/recovery_protocol.c:28-77 | What is altered behind the payload in use goes unnoticed |
| EngineProofs.CommonIsTheTable | firmware/bootloader/src/recovery_engine.c:97-138 | The checks before any session state, as a table: which payload lengths and flags each command may carry |
| RecoveryEngine.EraseIsWholeSectors | firmware/bootloader/src/recovery_engine.c:436-465 | An erase covers the declared size with the fewest whole sectors |
| Client.InfoFields | firmware/bootloader/src/recovery_engine.c:294-325 | Every field of the information report is where the host's struct has it |
| SessionNumbers.ScrambleInjective | firmware/bootloader/src/recovery_engine.c:140-153 | The session number generator never maps two seeds to one number |
| SessionNumbers.NextSessionMoves | firmware/bootloader/src/recovery_engine.c:140-153 | A new session's number always differs from the one before |
| SessionNumbers.FirstSessions | firmware/bootloader/src/recovery_engine.c:140-153 | From the default seed the first two sessions are 0x333740EA and 0x5C9F3C58 |
| SessionNumbers.BeginMovesOn | firmware/bootloader/src/recovery_engine.c:375-434 | Every accepted BEGIN leaves the session number changed |
| SessionNumbers.WrongSessionIsRefused | firmware/bootloader/src/recovery_engine.c:747-784 | A session command with another number changes neither engine nor flash and is not accepted |
| SessionNumbers.OldSessionStaysOut | firmware/bootloader/src/recovery_engine.c:375-434 | After an accepted BEGIN no session command that carries the previous number is let in while that session lasts, whatever packets come between |
| Boot.ReportedIsTried | firmware/bootloader/src/boot_state.c:107-114 | GET_INFO reports the slot a boot without faults tries first, and such a boot hands off to it exactly if the image there boots |
| Serving.CopyIsServed | firmware/bootloader/src/recovery_engine.c:717-800 | A report the engine would take is answered with a matching OK by every copy that arrives on a reliable chip: the first is executed, the others are served from the cache and change nothing |
| Client.PackedIsComplete | tools/open_image.py:206-263 | Every packed image with valid vectors is one an upload can finish |
| Client.OwnStateIsTaken | firmware/bootloader/src/boot_journal.c:252-264 | The journal takes the pending record of an engine that holds the journal's own state |
| Client.EntryWelcomes | tools/pedalctl.py:970-1003 | A recovery entered with the journal's own state welcomes every complete image for the unconfirmed slot exactly if no trial of that slot is still to come |
| UsbRing.LevelSettles | firmware/hardware_app/src/usb_audio_ring.c:59-98 | With 48 frames an interval a level of 48 to 144 stays, a lower one is at 48 after one packet, a higher one falls by one a packet until it is at 144 |
| DspMath.BlendIsTheMix | firmware/hardware_app/src/main.c:860-873 | A blend is the exact weighted mix, rounded toward zero by less than one step |
| DspMath.ScaledIsTheProduct | firmware/hardware_app/src/main.c:2098-2123 | A scaled value is the exact product over one, rounded toward zero |
| DspMath.SharesAreExact | firmware/hardware_app/src/main.c:1085-1132 | Each knob, parameter and oscillator share is the exact one rounded down: nothing at the bottom of its range, all of it at the top |
| DspMath.TriangleTurns | firmware/hardware_app/src/main.c:815-824 | The halves of the oscillator's turn mirror each other, and each rises by two a step |
| DspMath.IncrementIsTheRate | firmware/hardware_app/src/main.c:807-813 | A phase increment is the asked rate at 48000 frames a second, rounded down |
| DspMath.FilterMovesByTheShare | firmware/hardware_app/src/main.c:842-858 | One filter step goes the share alpha of the way to its input, within one step |
| DspMath.SoftIsTheKnee | firmware/hardware_app/src/main.c:898-908 | The soft knee is the exact x / (1 + |x|), rounded toward zero |
| DspMath.ShapeIsTheMix | firmware/hardware_app/src/main.c:909-917 | The drive curve is the exact mix of soft knee and hard clip, rounded toward zero |
| Dsp.ParameterEnds | firmware/hardware_app/src/main.c:1085-1132 | From one end of the knobs to the other each parameter covers the range the firmware gives it |
| Dsp.ParametersRise | firmware/hardware_app/src/main.c:1085-1132 | No parameter falls when its knob is turned up |
| Trial.TokenIsWords | firmware/bootloader/src/boot_trial.c:6-33 | Exactly one content of the four words says each token |
| Trial.OneWordIsGuarded | firmware/bootloader/src/boot_trial.c:6-33 | A token with any one of its four words altered says nothing any more |
| Dsp.CabinetMovesOn | firmware/hardware_app/src/main.c:995-1005 | The cabinet ring holds the last eight values in order |
| Dsp.ReverseHead | firmware/hardware_app/src/main.c:1910-1922 | The reverse head is a tap: in the second half of a window one that grows by two a frame, in the first half one of what the line kept from its last time round |
| Dsp.Processor.ReverseDelay | firmware/hardware_app/src/main.c:1910-1936 | What is heard, in terms of that tap and the fade at the window's edges |
| Dsp.Processor.PlateReverb | firmware/hardware_app/src/main.c:1975-2008 | What is heard and what is written, in terms of four taps |
| Echo.OneFrame | firmware/hardware_app/src/main.c:1864-1884 | A frame with the digital delay selected moves its line on by one input and outputs the mix with the repeat |
| Echo.EchoOfOneSound | firmware/hardware_app/src/main.c:1864-1884 | The echo of one sound into an empty line comes back every RepeatTime frames, turned down once more each time, and nothing else is ever in the line |
| Echo.RepeatsFade | firmware/hardware_app/src/main.c:1864-1884 | Every repeat keeps its sign and at most 27/32 of the one before |
| Echo.ShortestEcho | firmware/hardware_app/src/main.c:1864-1884 | With the knobs at zero an impulse of 0x100000 is written at an eighth after 2400 frames, and its second repeat is heard after 4800 |
| Echo.EverySoundDiesOut | firmware/hardware_app/src/main.c:1864-1884 | The feedback is stable: whatever the line holds, after enough silence every sample that can still be heard is zero |
| Serving.HandlersRepeat | firmware/bootloader/src/recovery_engine.c:640-683 | Every reply repeats the command, flags, sequence, session and offset of its request, but for the session a BEGIN names and the progress a whole-chip erase reports |

## Left out

- Hardware access, cache maintenance, the jump itself, USB and HID transport, device discovery, argument parsing, knob calibration and ROM tooling.
- NULL-pointer and incomplete-backend checks: the modelled objects exist.
- The software recovery request and the factory-engine request mailboxes: recovery requested is an input of a boot.
- A device reset in the middle of a client's session: the client theorems cover lost requests, lost replies and failing backends of one running device.
- Client.Link.Exchange: does not deliver the reply of an earlier copy late; a reply comes back at once or never.
- Client.RecoveryClient.Upload: starts after the host's own checks of the image file; the device repeats every one of them at FINALIZE_IMAGE.
- The client's READ_CHUNK call: it does not change the flash.
- Whole-flash sessions inside the boot state machine: they replace journal and slots on purpose, so the runs of BootMachine keep the permission off; the sessions themselves are covered by EngineProofs.
- GET_LOG and READ_KNOBS contents: their bytes are free, and no freshness is claimed for them.
- The floating-point effects and the audio blocks of effect_chain_process.
- BootEntries.BootEntryProtectsIff: leaves aside the default state beside a journal with a sequence between 0x80000002 and 2^32 - 8421504, which takes more than two billion records to reach; LateDefault shows that agreement is not enough there.
- EffectRuntime.AlignUp: states the aligned address by arithmetic; the mask of the C code equals it for the powers of two the registry admits, as long as the arena does not end at the top of the address space.
- How the effects sound: each frame is fixed to the last bit in terms of what was there before, and only the digital delay is followed over whole runs.
