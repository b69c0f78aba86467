# Headset application and tools: verified models

Dafny models of six parts of the headset repository, with proofs of what they promise.
`dafny verify dfyconfig.toml` checks the whole project.

## What is modelled

**Headset application** (`headset_sm.c`, `headset_wired_audio_controller.c`, `headset_usb.c`, default
build), together with the two modules it drives: the start and stop of the stereo topology
(`stereo_topology.c`) and the system state (`system_state.c`). A message-driven machine of nine states
with entry and exit actions, two timers, a completion message held back by a lock, pairing flags, a
pausable wired audio controller that calls back into the machine, and a USB audio switch.

- `HeadsetModel.dfy`: one `Machine` value and one `Step` for each message.
- `HeadsetSm.dfy`: the class `Headset`, global task data updated in place, one method a C function.
  Its message loop does exactly one `Step` (`HandleMessage`).
- `HeadsetInvariant.dfy`, `HeadsetPower.dfy`: two inductive invariants, one for the state machine, one
  for whose stop confirmation is under way and in which order notices arrive; both kept by every
  message under no assumption on what arrives or what the libraries answer.
- `HeadsetRuns.dfy`, `HeadsetDelete.dfy`, `HeadsetPause.dfy`: what follows for every run: timers,
  pairing, shutdown acknowledgement; the delete-handsets protocol; pausing for wired audio.
- `HeadsetTransitions.dfy`, `HeadsetSystem.dfy`, `HeadsetPowerOff.dfy`, `HeadsetPairing.dfy`: every
  state change of every orderly run is an edge of the documented diagram or one of the handlers' own;
  when such a run panics; how the state follows the system state; when a power-off ends in LIMBO;
  that wired audio is off in PAIRING.
- `HeadsetEffects.dfy`: one message, field by field: which steps enter each state, and which set each
  flag, timer, notice and call, read off the fields and the libraries' answers alone.
- `HeadsetReachable.dfy`: runs that really take each extra edge and reach each dead end. In these
  line-in is reported only while it is monitored, as `wired_audio_detect.c` does.

A run is called orderly if A2DP streams only in IDLE or BUSY, no shutdown is prepared in NULL, and
nothing is handled after the factory reset that reboots the chip.

What the libraries answer while one message is handled is a single `Env` value, so that no answer
can change half way through a handler but that of line-in, when the handler starts or stops its
monitoring; otherwise it is arbitrary, message by message. Libraries
that are told something are flags and counters. A message can be handled if it was posted. What the
topology and the system state module post is handled in the order of posting; all other messages may
arrive in any order. The topology becomes started, and stops, whenever it likes. The power-on table
waits for a prompt before it starts the topology. `Panic` ends the run. Idle and limbo timeouts are
configured non-zero, and all link timeouts run equally long.

**Serial RAM transfers** (`SpiSram.dfy`): the linked list of outstanding transfers, unlinked in place
on completion, with callbacks that may start further transfers. The list cells are objects, the list
value a specification.

**Thermistor** (`Thermistor.dfy`, `ThermistorTable.dfy`): the two-way table search seeded by the last
temperature is a plain scan; and the script that generates the table generates one that the search
may use.

**SSM2518 amplifier** (`Ssm2518.dfy`): gain conversion in wrapping 16-bit arithmetic, and the mute
register over sequences of calls.

**Project merging** (`TextMerge.dfy`, `ProjectMerge.dfy`): word-wise text merging, x2p and x2w merging;
`ProjectTrees.dfy` says which elements the queries find, by their place in the tree, and
`ProjectResults.dfy` what a merge makes of the tree, place by place. `Picking.dfy` is about parts of
sequences.

**Key replacement** (`KeyReplacement.dfy`): renaming, copying, archiving and rolling back while any file
operation may fail, with a caught or an uncaught exception, and a failed write may leave anything.

## Findings

Where the code does not do what its comments, its documentation or its design promise, the exact
condition under which it does is proved.

- A failed disconnection during a user pairing returns to IDLE with wired monitoring stopped and USB
  audio off (`headset/src/headset_sm.c:1162-1165`): `FailedDisconnectionStaysOff`, reached in
  `IdleWiredOffReachable`. Of all moves from PAIRING to IDLE exactly the pairing confirmation brings
  wired audio back (`BackToIdleExactly`).
- The state diagram lacks edges that the handlers have, such as POWERING_ON to BUSY, TERMINATING to
  IDLE and LIMBO to IDLE (`HandlerEdgesHappen`).
- `HeadsetUsb_SetInactiveAppType` accepts applications with which `HeadsetUsb_AudioDisable` panics:
  those other than the active one, the default one and none. An orderly run has panicked exactly if
  its last step disabled USB audio with such an application set (`PanicsExactly`,
  `PanicReachable`).
- A stop of the topology brings a confirmation of its own only from STARTED and STOPPED, and the one
  confirmation goes to the last requester. So a pause that meets a starting topology is not resumed,
  nor is one whose stop a power-off overtakes (`StartingPause`, `OvertakenPause`, `PauseLasts`). With
  no later stop a pause that does not meet POWERING_OFF ends exactly if the topology was not starting
  or a confirmation was still coming (`ResumedExactly`); carried into POWERING_OFF, exactly if two
  confirmations are coming (`PoweringOffResumesExactly`); and one that is on when a power-off is
  accepted, exactly if its confirmation had been sent before (`OvertakenExactly`).
- For the same reason a power-off does not always get from POWERING_OFF to LIMBO (`PoweringOffStuck`).
  It does exactly if some stop between its acceptance and the moment the state machine is told did
  not meet a starting topology; with no other stop in between, exactly if the topology was not
  starting when the power-off was accepted (`PowerOffEndsExactly`). Otherwise POWERING_OFF lasts until
  a shutdown or a factory reset (`PoweringOffLasts`).
- A power-off accepted while powering on finds no branch in the state machine: it stays behind while
  the system goes to limbo, where power-on is accepted in LIMBO only, until a factory reset
  (`LeftBehindReachable`, `LeftBehindLasts`). The states match the system state exactly in the
  runs that `MatchesExactly` describes.
- A delete request can be cut short by the timeout of an earlier one, exactly if a link timeout is
  pending when it is accepted (`CutShortExactly`).
- The thermistor voltage is the reading times the constant over the reference, rounded down, exactly
  while the product fits 32 bits and the quotient 16 (`MillivoltsExactly`); beyond that a higher
  reading may give a higher temperature (`WrappedReadingMisread`).
- The amplifier takes any sample rate; its clock and rate settings are for that rate exactly in the
  four bands the chip supports (`SettingsFitExactly`).
- `xfers_count_max` is not updated by reads (`HighWaterMissesReads`). It is the greatest number of
  outstanding transfers exactly if that number was reached right after a write (`HighWaterExactly`).
- The amplifier's comment puts the muting point at -4320; channels mute from -4287 already. Gains
  below -16383 overflow, and `AudioI2SDeviceSetGain` then sets the master mute over two channels at
  an audible volume (`MuteByteExactly`, `SetGainExactly`).
- Merging a text twice is not merging it once if its last new word ends in whitespace other than the
  separator (`MergeIdempotentExactly`, `UncleanMergeRepeats`).
- Merging a workspace can put a second `dependencies` node of a default project into the tree, after
  which no workspace can be merged any more (`NestedDefaultMergesOnce`): exactly if a project that is
  new to the dependencies or to the workspace holds such a node (`X2wIdempotentExactly`).
- A backup name equal to the file to replace, or to the file to copy, can lose the original
  (`ReplaceKeepsOriginalExactly`). A failed key generation goes unnoticed (`FailedCreationInstalled`):
  success means the fresh key exactly if its generation did not fail with a caught exception, or left
  the whole key all the same (`FreshKeyExactly`).
  Using an existing key can overwrite it from an archive left by an earlier run of the same name
  (`UseKeepsKeyExactly`).

## Model

| member | source | states |
|---|---|---|
| HeadsetInvariant.InitEstablishes | headset/src/headset_sm.c:1499-1560 | the initial task data satisfies the invariant |
| HeadsetInvariant.SetStateKeeps | headset/src/headset_sm.c:827-923 | any state change, from any state but FACTORY_RESET to any state, keeps lock, observation, pause, timer and pairing invariants, whatever the libraries answer |
| HeadsetInvariant.EnableKeeps | headset/src/headset_wired_audio_controller.c:57-83 | resuming never takes the "connected" callback, so it never pauses again: it ends resumed, in IDLE if it was BUSY and wired audio is gone, and otherwise changes nothing else |
| HeadsetInvariant.StartPairingKeeps | headset/src/headset_sm.c:944-963 | stopping wired audio, setting the user flag and moving to PAIRING keeps the invariant, also from PAIRING and from BUSY |
| HeadsetInvariant.StopConfirmKeeps | headset/src/headset_sm.c:1222-1239 | a stop confirmation keeps the invariant; it leaves the controller paused exactly if it was and the state was POWERING_OFF, which then becomes LIMBO |
| HeadsetInvariant.RequestKeeps | headset/src/headset_sm.c:931-995 | factory reset, pairing, deletion and power-off requests keep the invariant |
| HeadsetInvariant.LinkEventKeeps | headset/src/headset_sm.c:352-378 | disconnection, completion and link timeout keep the delete-handsets invariant |
| HeadsetInvariant.StepKeepsInvariant | headset/src/headset_sm.c:1281-1441 | every message that does not panic keeps the whole invariant: lock set means a completion and a timeout pending, completions are no newer than the last "no handset" observation once unlocked, a paused controller has recorded "connected", timers are unique and of this visit, pairing flags agree |
| HeadsetPower.PowerOffKeeps | adk/src/domains/power/system_state/system_state.c:276-287 | an accepted power-off posts its change, stops the topology for its table, and keeps who is owed what |
| HeadsetPower.MachineStopKeeps | adk/src/topologies/stereo_topology/core/stereo_topology.c:233-258 | so does a stop by the state machine, which takes a confirmation under way away from the table |
| HeadsetPower.StoppedKeeps | adk/src/topologies/stereo_topology/core/stereo_topology.c:79-96 | and the one confirmation sent to the last requester when stopping ends |
| HeadsetPower.TableConfirmHandled | adk/src/domains/power/system_state/system_state.c:166-194 | the table's confirmation always finds the system powering off, and was the only one under way for the table |
| HeadsetPower.MachineConfirmInPoweringOff | adk/src/topologies/stereo_topology/core/stereo_topology_client_msgs.c:27-38 | a confirmation to the state machine in POWERING_OFF means that the table gets none |
| HeadsetPower.StepFits | adk/src/domains/power/system_state/system_state.c:127-194 | every message keeps all of this: at most one confirmation for the table, only while powering off, after the change; POWERING_OFF means powering off; NULL, LIMBO and POWERING_OFF have been told of every power-off |
| HeadsetRuns.RunInvariant | headset/src/headset_sm.c:1281-1441 | the invariant holds after any number of messages |
| HeadsetDelete.CompletesStep | headset/src/headset_sm.c:290-378 | a completion is queued by an accepted delete request, in order, taken from the front, and dropped only by a timeout while locked; no other message touches them |
| HeadsetDelete.ProtocolHistory | headset/src/headset_sm.c:290-312 | in every run each queued completion stems from an accepted delete request, and the recorded observation from a step that saw no handset |
| HeadsetDelete.ErasureJustified | headset/src/headset_sm.c:352-366 | in every run pairings are erased only on behalf of an accepted request and only if some step at or after that request found no connected handset |
| HeadsetDelete.ErasuresAnswerDistinctRequests | headset/src/headset_sm.c:967-985 | one request erases at most once: erasures answer different requests, in order |
| HeadsetDelete.LockNeverStuck | headset/src/headset_sm.c:369-378 | before FACTORY_RESET a set lock always has a completion held back and a timeout pending whose handling clears the lock, drops the completion and erases nothing |
| HeadsetDelete.LinkTimersStep | headset/src/headset_sm.c:290-378 | link timers are posted by accepted requests and cancelled first in first out, by a completion, a timeout or a factory reset |
| HeadsetDelete.OlderTimersNeverReturn | headset/src/headset_sm.c:310-311 | with no link timer pending when a request is accepted, no older one is ever pending again |
| HeadsetDelete.CutShortExactly | headset/src/headset_sm.c:369-378 | the run up to an accepted request can go on to an older timeout that drops the request exactly if a link timeout was pending when it was accepted |
| HeadsetPause.HandoverResumes | headset/src/headset_wired_audio_controller.c:168-195 | a pause spent in BUSY ignores every wired event and ends unpaused, BUSY exactly if wired audio is available at that moment |
| HeadsetPause.PauseStep | headset/src/headset_sm.c:1222-1239 | the controller is paused after a message exactly if it pauses now, or was paused and this is no confirmation outside POWERING_OFF |
| HeadsetPause.ComingStep | adk/src/topologies/stereo_topology/core/stereo_topology.c:233-258 | confirmations coming: one fewer for each handled, one more for each stop that meets STARTED or STOPPED, and no other change |
| HeadsetPause.PauseLasts | headset/src/headset_sm.c:719-738 | with nothing coming a pause lasts until the next stop |
| HeadsetPause.ResumedExactly | headset/src/headset_sm.c:271-279 | with no later stop a pause from which POWERING_OFF is not met has ended, once nothing is coming, exactly if its stop did not meet a starting topology or a confirmation was still to come |
| HeadsetPause.OvertakenExactly | adk/src/topologies/stereo_topology/core/stereo_topology.c:233-258 | a pause met by a power-off has ended, once nothing is coming, exactly if its confirmation had been sent before the power-off |
| HeadsetPause.PoweringOffResumesExactly | headset/src/headset_sm.c:1222-1239 | a pause carried into POWERING_OFF has ended in LIMBO, once nothing is coming, exactly if two confirmations were coming |
| HeadsetRuns.TimeoutsActOnThisVisit | headset/src/headset_sm.c:558-575 | a timeout acted on is the only one pending and was started in the same uninterrupted visit to IDLE or LIMBO |
| HeadsetRuns.PairingFlagsAgree | headset/src/headset_sm.c:742-765 | after every message the connection prohibition equals the user flag, and both it and a requested pairing procedure mean PAIRING |
| HeadsetRuns.EnteredWiredOff | headset/src/headset_sm.c:514-555 | every way into PAIRING leaves wired monitoring stopped and USB audio disabled |
| HeadsetRuns.WiredOffWhilePairing | headset/src/headset_sm.c:1110-1138 | from PAIRING wired audio comes back exactly by a pairing confirmation, which ends in IDLE, or by the power-on table |
| HeadsetRuns.FailedDisconnectionStaysOff | headset/src/headset_sm.c:1153-1167 | a failed disconnection in a user pairing ends in IDLE with wired audio off |
| HeadsetRuns.BackToIdleExactly | headset/src/headset_sm.c:1110-1167 | of all moves from PAIRING to IDLE exactly the pairing confirmation brings wired audio back |
| HeadsetPairing.PairingMeansWiredOff | adk/src/domains/audio/wired_source/wired_audio_detect.c:118-165 | in every orderly run in which line-in is reported in POWERING_ON only while it is monitored, PAIRING means wired monitoring stopped and USB audio disabled, and the power-on table never finishes there |
| HeadsetRuns.EveryPrepareAnswered | headset/src/headset_sm.c:410-430 | responses equal the shutdown indications handled minus those taken in LIMBO with a silent commit enabled |
| HeadsetTransitions.OrderlyStep | headset/src/headset_sm.c:1281-1441 | one message: it panics exactly if it disables USB audio with an inactive application to panic at; otherwise any state change is along an edge |
| HeadsetTransitions.PanicsExactly | headset/src/headset_usb.c:207-229 | with streaming only in IDLE or BUSY and no shutdown in NULL, a run before the factory reset has panicked exactly if its last step disabled USB audio with an inactive application other than the active one, the default one and none |
| HeadsetTransitions.EveryMoveIsAnEdge | headset/src/headset_sm.h:16-60 | every state change of such a run is a documented edge or one of the handlers' own |
| HeadsetSystem.MatchesExactly | headset/src/headset_sm.c:1082-1102 | the state follows the system state throughout such a run exactly if no power-on is told while powering off, nor a power-off while powering on unless in TERMINATING |
| HeadsetSystem.LeftBehindLasts | adk/src/domains/power/system_state/system_state.c:263-274 | with the system in limbo, the state neither LIMBO nor FACTORY_RESET and nothing for the table under way, it stays so until a factory reset |
| HeadsetPowerOff.UntilLimbo | headset/src/headset_sm.c:1222-1239 | POWERING_OFF lasts, with as many confirmations coming as before, until one of them leads to LIMBO, or there is a shutdown or factory reset |
| HeadsetPowerOff.PoweringOffLasts | headset/src/headset_sm.c:1222-1239 | with no confirmation coming POWERING_OFF lasts until a shutdown or a factory reset |
| HeadsetPowerOff.PoweringOffLeftExactly | headset/src/headset_sm.c:1222-1239 | POWERING_OFF has been left for LIMBO, once nothing is coming and with no shutdown or factory reset, exactly if a confirmation was coming |
| HeadsetPowerOff.ToldOfPowerOff | adk/src/topologies/stereo_topology/core/stereo_topology.c:233-258 | when the state machine is told of a power-off, a confirmation is coming exactly if some stop since its acceptance, the table's own included, did not meet a starting topology |
| HeadsetPowerOff.PowerOffEndsExactly | headset/src/headset_init.c:758-770 | an accepted power-off gets from POWERING_OFF to LIMBO exactly then; with no other stop in between, exactly if the topology was not starting when it was accepted |
| HeadsetReachable.HandlerEdgesHappen | headset/src/headset_sm.c:1222-1279 | every one of the handlers' own edges is taken by some orderly run in which line-in is reported only while it is monitored |
| HeadsetReachable.OvertakenPause | adk/src/topologies/stereo_topology/core/stereo_topology.c:233-258 | wired audio, then power-off while the topology is stopping: LIMBO with the controller paused and nothing coming |
| HeadsetReachable.StartingPause | headset/src/headset_init.c:738-756 | line-in found as the power-on table starts the topology: BUSY with the controller paused and nothing coming |
| HeadsetReachable.PoweringOffStuck | headset/src/headset_init.c:758-770 | power-off while the topology is starting: POWERING_OFF with nothing coming |
| HeadsetReachable.PanicReachable | headset/src/headset_usb.c:207-229 | a run that panics with an inactive application it has accepted |
| HeadsetReachable.LeftBehindReachable | headset/src/headset_sm.c:988-1003 | power-off while powering on: POWERING_ON with the system in limbo and left behind |
| HeadsetReachable.IdleWiredOffReachable | headset/src/headset_sm.c:1153-1167 | after the power-on table a failed disconnection reaches IDLE with wired audio off |
| HeadsetEffects.AudioActivityExactly | headset/src/headset_sm.c:1206-1220 | on an AV or call message a headset in IDLE or BUSY becomes BUSY exactly if A2DP streams, SCO is active, line-in is available, or USB audio is on with an audio application and a host, and IDLE otherwise; in any other state nothing changes |
| HeadsetEffects.EntersExactly | headset/src/headset_sm.c:1281-1441 | for each state, exactly which messages enter it, in which states and under which answers of the libraries; no other message changes the state |
| HeadsetEffects.WiredExactly | headset/src/headset_usb.c:119-229 | exactly what switches USB audio and monitoring on and off, which application is then open, which may be set, and when the wired controller is paused |
| HeadsetEffects.FlagsExactly | headset/src/headset_sm.c:742-765 | exactly what sets and clears the disconnect lock, the user pairing, the automatic power-on, the prohibition and the pairing procedure |
| HeadsetEffects.PowerExactly | adk/src/topologies/stereo_topology/core/stereo_topology.c:233-258 | the system state, the topology, its requester and the notices posted after each message, exactly |
| HeadsetEffects.TimersExactly | headset/src/headset_sm.c:209-407 | exactly when the idle and the limbo timer are started, stopped and left running |
| HeadsetEffects.CallsExactly | headset/src/headset_sm.c:558-575 | exactly which messages post a request, ask for a power-off, reboot the chip or power it on |
| HeadsetEffects.StepExactly | headset/src/headset_sm.c:1281-1441 | all of these together: one message, field by field |
| HeadsetEffects.UsbPanicExactly | headset/src/headset_usb.c:207-229 | a message of an orderly run panics exactly if it enters PAIRING or ends the power-off table while the inactive application is neither the active one, the default one nor none |
| HeadsetEffects.EveryCallCounted | headset/src/headset_sm.c:558-575 | over every orderly run the power library is asked to power off once for each limbo timeout in LIMBO and each return from POWERING_OFF to LIMBO; a reboot means FACTORY_RESET, and the automatic power-on happens at most once |
| HeadsetSm.LeaveThenEnter | headset/src/headset_sm.c:827-923 | the part-by-part state change of the model is exit action, assignment, entry action, in that order |
| HeadsetSm.Headset.constructor | headset/src/headset_sm.c:1499-1520 | power-up data is an initial machine of the model |
| HeadsetSm.Headset.AudioEnable | headset/src/headset_usb.c:169-205 | switches USB audio on and opens the active application, if it is one to open |
| HeadsetSm.Headset.AudioDisable | headset/src/headset_usb.c:207-229 | switches USB audio off and opens the inactive application, or panics with one it does not know |
| HeadsetSm.Headset.SetActiveAppType | headset/src/headset_usb.c:119-139 | accepts a supported application only while USB audio is off |
| HeadsetSm.Headset.SetInactiveAppType | headset/src/headset_usb.c:141-167 | accepts a supported or the same application only while USB audio is off |
| HeadsetSm.Headset.ControllerDisable | headset/src/headset_wired_audio_controller.c:168-180 | records whether wired audio is available and pauses |
| HeadsetSm.Headset.Enable | headset/src/headset_wired_audio_controller.c:183-195 | compares with the record, calls the state machine back, then resumes |
| HeadsetSm.Headset.HandleControllerMessage | headset/src/headset_wired_audio_controller.c:86-146 | wired and USB events are dropped while paused and otherwise reported when they mean a change |
| HeadsetSm.Headset.ChangeState | headset/src/headset_sm.c:827-923 | the in-place state change is the one of the model; FACTORY_RESET panics before anything changes |
| HeadsetSm.Headset.OnPoweredOn | headset/src/headset_sm.c:514-555 | idle, pairing or nothing, by wired audio and paired handsets |
| HeadsetSm.Headset.OnPairHandset | headset/src/headset_sm.c:944-963 | user pairing from IDLE, or while streaming is paused |
| HeadsetSm.Headset.InitiateDisconnection | headset/src/headset_sm.c:290-312 | lock set or cleared, completion and timeout posted |
| HeadsetSm.Headset.OnTopologyStopConfirm | headset/src/headset_sm.c:1222-1239 | LIMBO and power-off request in POWERING_OFF, resumption elsewhere |
| HeadsetSm.Headset.StopTopology | adk/src/topologies/stereo_topology/core/stereo_topology.c:233-258 | the requester is overwritten in any state, stopping begins from STARTED, a confirmation is sent at once from STOPPED |
| HeadsetSm.Headset.PowerOffSystem | adk/src/domains/power/system_state/system_state.c:276-287 | accepted while powering on and active: the change is posted, then the table stops the topology |
| HeadsetSm.Headset.OnTableConfirm | headset/src/headset_init.c:758-770 | the table's confirmation and the rest of the table, up to limbo or a panic |
| HeadsetSm.Headset.HandleMessage | headset/src/headset_sm.c:1281-1441 | handling one queued message in place is exactly one step of the model, so every run property holds of the program |
| SpiSram.StartKeeps | headset/src/peripherals/spi_sram_23LC1024.c:257-333 | starting a transfer, or being refused one, keeps the list invariant |
| SpiSram.StepKeeps | headset/src/peripherals/spi_sram_23LC1024.c:335-366 | so does a completion with any callback that starts any transfers |
| SpiSram.RunKeeps | headset/src/peripherals/spi_sram_23LC1024.c:257-366 | for every order of events: counter equals list length, started equals completed plus outstanding, distinct handles newest first, and each callback has run exactly if its transfer finished, once, with its context |
| SpiSram.CompletionUnlinksItsOwn | headset/src/peripherals/spi_sram_23LC1024.c:345-364 | a completion unlinks exactly its own transfer, keeps the order of the rest, and makes exactly its own call; an unknown handle changes nothing |
| SpiSram.CallsReportTheirResult | headset/src/peripherals/spi_sram_23LC1024.c:353-357 | every call over a run reports the result given for its transfer's handle |
| SpiSram.StartsInOrder | headset/src/peripherals/spi_sram_23LC1024.c:257-333 | starts made one after another link one transfer for each that the block accepts and for no other, in order, with its handle and callback |
| SpiSram.CompletionStartsInOrder | headset/src/peripherals/spi_sram_23LC1024.c:345-364 | a completion starts exactly what its callback starts and the block accepts, in order, and nothing without a callback |
| SpiSram.MarkIsHighestAfterWrite | headset/src/peripherals/spi_sram_23LC1024.c:283-289 | over every run, transfers started by callbacks included, the high-water mark is the greatest list length right after a write |
| SpiSram.HighWaterExactly | headset/src/peripherals/spi_sram_23LC1024.c:257-333 | it never exceeds the greatest length of all, and is that length exactly if it was reached right after a write or nothing was ever started |
| SpiSram.HighWaterMissesReads | headset/src/peripherals/spi_sram_23LC1024.c:302-333 | a run of two reads whose mark is 0 |
| SpiSram.HeaderAddresses | headset/src/peripherals/spi_sram_23LC1024.c:268-271 | the command is 2 for a write and 3 for a read, and the header addresses the offset modulo 24 bits, so the offset itself exactly if it fits |
| SpiSram.SpiRam.Write | headset/src/peripherals/spi_sram_23LC1024.c:257-300 | links one new cell in front, with header and payload, or leaves the list alone |
| SpiSram.SpiRam.Read | headset/src/peripherals/spi_sram_23LC1024.c:302-333 | links one new cell in front, with header only, or leaves the list alone |
| SpiSram.SpiRam.UnlinkCell | headset/src/peripherals/spi_sram_23LC1024.c:349-351 | unlinking through the pointing field removes that cell and no other |
| SpiSram.SpiRam.HandleEvent | headset/src/peripherals/spi_sram_23LC1024.c:335-366 | the pointer walk over the linked cells does what the completion of the model does |
| Thermistor.Scan | headset/src/peripherals/thermistor.c:45-53 | least index with an entry at most the reading, or the last: rounding up in temperature |
| Thermistor.ScanAntitone | headset/src/peripherals/thermistor.c:45-53 | a higher voltage never gives a higher temperature |
| Thermistor.IndexToTemperature | headset/src/peripherals/thermistor.c:76 | adding in 32 bits unsigned and narrowing to int8 loses nothing, below zero either |
| Thermistor.MillivoltsToDegreesCelsius | headset/src/peripherals/thermistor.c:54-95 | for every previous temperature the two-way search returns the scan's result, in an exact number of loop turns |
| Thermistor.DegreesCelsiusToMillivolts | headset/src/peripherals/thermistor.c:39-43 | on a non-increasing table, converting the voltage back gives the lowest temperature that has the voltage of the clamped one |
| Thermistor.RoundTripExactly | headset/src/peripherals/thermistor.c:39-95 | degrees to millivolts and back is the clamp exactly where the table falls strictly |
| Thermistor.RoundTripClamps | headset/src/peripherals/thermistor.c:39-95 | on a strictly falling table the round trip is the clamp for every temperature |
| Thermistor.SearchCost | headset/src/peripherals/thermistor.c:54-95 | over any run of readings the loop turns are at most the total variation of the temperature plus the number of readings |
| Thermistor.ClampIsNearest | headset/src/peripherals/thermistor.c:31-37 | the clamp is the temperature of the table nearest to the one asked for |
| Thermistor.MillivoltsExactly | headset/src/peripherals/thermistor.c:117 | the voltage is constant times reading over reference, rounded down, exactly if the product fits 32 bits and the quotient 16 |
| Thermistor.MillivoltsWraps | headset/src/peripherals/thermistor.c:117 | otherwise product and quotient are short by a multiple of their range |
| Thermistor.ReadingAntitone | headset/src/peripherals/thermistor.c:109-121 | where nothing wraps a higher reading never gives a higher temperature |
| Thermistor.WrappedReadingMisread | headset/src/peripherals/thermistor.c:117 | where the quotient wraps it may |
| Thermistor.Sensor.HandleMeasurement | headset/src/peripherals/thermistor.c:102-129 | a thermistor message yields, where nothing wraps, the least temperature whose entry times the reference is at most the constant times the reading, or the highest; a reference message is remembered, others change nothing |
| Thermistor.Sensor.HandleAll | headset/src/peripherals/thermistor.c:102-129 | a run of messages, each search seeded by the temperature the one before left, ends with the temperature and reference of the specification |
| Thermistor.HistoryForgotten | headset/src/peripherals/thermistor.c:102-129 | two runs of messages with any pasts agree once their last readings and references agree |
| ThermistorTable.VoltageFalls | headset/src/peripherals/thermistor.py:51-72 | for any positive, never decreasing exponential and positive constants, millivolts never rise with temperature and stay within the supply |
| ThermistorTable.VoltageIs | headset/src/peripherals/thermistor.py:51-72 | the voltage of the divider in millivolts, rounded down, with the resistance the beta formula gives for both temperatures in kelvin |
| ThermistorTable.GenerateTable | headset/src/peripherals/thermistor.py:120-123 | one entry a degree, each the voltage of its temperature |
| ThermistorTable.GeneratedTableSearchable | headset/src/peripherals/thermistor.py:120-123 | a generated table meets what the firmware's search asks of it |
| Ssm2518.VolumeByte | headset/src/peripherals/audio_i2s_SSM2518.c:211-258 | the 16-bit stages yield the nearest byte, clamped, and the wrapped value where a stage overflows |
| Ssm2518.RoundedIsNearest | headset/src/peripherals/audio_i2s_SSM2518.c:229-234 | truncated division with the sign-aware correction rounds to nearest, on both sides of zero |
| Ssm2518.VolumeExactly | headset/src/peripherals/audio_i2s_SSM2518.c:211-258 | the byte is the nearest to 64 - 2*gain/45, clamped, exactly for -16383 to 16384 |
| Ssm2518.VolumeAntitone | headset/src/peripherals/audio_i2s_SSM2518.c:200-209 | more gain, lower or equal byte, over all gains that do not overflow |
| Ssm2518.MuteByteExactly | headset/src/peripherals/audio_i2s_SSM2518.c:176-179 | the gains that send the mute byte, exactly; all from -4320 down to -16383 are among them |
| Ssm2518.ChannelKeeps | headset/src/peripherals/audio_i2s_SSM2518.c:180-292 | setting one channel keeps the mute register right |
| Ssm2518.SetGainExactly | headset/src/peripherals/audio_i2s_SSM2518.c:303-328 | setting both keeps it right exactly for gains from -16383 up |
| Ssm2518.ChannelGainExactly | headset/src/peripherals/audio_i2s_SSM2518.c:193-292 | a gain sets its own channel's volume and mute bit only, clearing the master bit unless the byte is 255 |
| Ssm2518.BothGainsExactly | headset/src/peripherals/audio_i2s_SSM2518.c:303-328 | both channels get the same volume; both mute bits and the master bit are set or cleared as the volume and -72 dB say |
| Ssm2518.SettingsFitExactly | headset/src/peripherals/audio_i2s_SSM2518.c:95-121 | clock and rate settings are for the sample rate exactly in the four supported bands |
| Ssm2518.MuteFitsAlways | headset/src/peripherals/audio_i2s_SSM2518.c:180-328 | over every sequence of calls, none of them setting both channels below -16383: channel bits say who is silent, the master bit implies both, no other bit is set |
| Ssm2518.InitialisedFits | headset/src/peripherals/audio_i2s_SSM2518.c:131-134 | initialisation establishes it |
| Ssm2518.Amplifier.Initialise | headset/src/peripherals/audio_i2s_SSM2518.c:73-140 | writes the clock, edge, sample-rate, serial and power registers and no other, and sets all mutes |
| Ssm2518.Amplifier.Shutdown | headset/src/peripherals/audio_i2s_SSM2518.c:146-163 | master mute only, powered down |
| Ssm2518.Amplifier.SetOneGain | headset/src/peripherals/audio_i2s_SSM2518.c:180-292 | writes the channel's volume and the mute register read before; refuses other channels |
| Ssm2518.Amplifier.SetBothGains | headset/src/peripherals/audio_i2s_SSM2518.c:303-328 | both channels, then the master bit at -72 dB and below |
| TextMerge.JoinOfSplit | adk/tools/addon_utils/addon_utils.py:180-183 | joining the words of a text gives the text |
| TextMerge.SplitOfJoin | adk/tools/addon_utils/addon_utils.py:180-183 | splitting joined words gives the words |
| TextMerge.MergeKeepsText | adk/tools/addon_utils/addon_utils.py:178-189 | existing text is kept, stripped, at the front, whatever is merged |
| TextMerge.MergeWordsExactly | adk/tools/addon_utils/addon_utils.py:178-189 | the words are the existing ones and then the missing ones, exactly if the last missing one does not end in whitespace |
| TextMerge.MergeIsUnion | adk/tools/addon_utils/addon_utils.py:178-189 | then the non-empty words are exactly those of both texts |
| TextMerge.MergeIdempotentExactly | adk/tools/addon_utils/addon_utils.py:171-189 | merging again changes nothing exactly if the last word to append is clean or comes twice |
| TextMerge.SeparatorsOnlyClean | adk/tools/addon_utils/addon_utils.py:171-189 | texts whose only inner whitespace is the separator always merge cleanly |
| TextMerge.UncleanMergeRepeats | adk/tools/addon_utils/addon_utils.py:188-189 | an input for which merging twice differs from merging once |
| TextMerge.StripCuts | adk/tools/addon_utils/addon_utils.py:173-177 | stripping takes off all whitespace at both ends and nothing else |
| TextMerge.MergeAppendsInOrder | adk/tools/addon_utils/addon_utils.py:178-189 | the result is the existing words, then exactly the incoming words that are not among them, in incoming order and each as often as it comes, joined and stripped; or the incoming text if there are none |
| TextMerge.MergedWordsInOrder | adk/tools/addon_utils/addon_utils.py:178-189 | these are the words of the result, trailing empty ones aside, exactly if the last of them does not end in whitespace |
| TextMerge.MergedExactly | adk/tools/addon_utils/addon_utils.py:171-178 | blank incoming text changes nothing, and no text counts as the empty text |
| TextMerge.Element.MergeText | adk/tools/addon_utils/addon_utils.py:171-189 | the element's text becomes the merged text; blank incoming text changes nothing |
| ProjectMerge.X2pPathsUnion | adk/tools/addon_utils/addon_utils.py:191-199 | after an x2p merge the file paths are the union of both |
| ProjectMerge.X2pKeepsChildren | adk/tools/addon_utils/addon_utils.py:191-204 | existing children stay in order in front, changed in property texts only |
| ProjectMerge.X2pIdempotentExactly | adk/tools/addon_utils/addon_utils.py:191-204 | merging the same project again changes nothing exactly if each property text can be merged twice |
| ProjectMerge.X2pIdempotent | adk/tools/addon_utils/addon_utils.py:191-204 | in particular for properties with plain separators |
| ProjectMerge.AppendKeepsPrefix | adk/tools/addon_utils/addon_utils.py:226-238 | an x2w merge keeps the existing children, in order, in front |
| ProjectMerge.AppendedAreNew | adk/tools/addon_utils/addon_utils.py:226-238 | no appended child equals one in front of it |
| ProjectMerge.AppendCovers | adk/tools/addon_utils/addon_utils.py:226-238 | every incoming child ends up with an equal one |
| ProjectMerge.AppendIdempotent | adk/tools/addon_utils/addon_utils.py:226-238 | merging the same children again changes nothing |
| ProjectMerge.ElemEqualEquivalence | adk/tools/addon_utils/addon_utils.py:206-217 | shallow equality is an equivalence |
| ProjectMerge.AppendedTargets | adk/tools/addon_utils/addon_utils.py:226-238 | what is appended holds no dependencies node of a default project exactly if no candidate that is new among the children and the candidates before it does |
| ProjectMerge.NodeHasChild | adk/tools/addon_utils/addon_utils.py:219-225 | found exactly if some child is equal |
| ProjectTrees.FilesExactly | adk/tools/addon_utils/addon_utils.py:133-142 | the files found are exactly the file elements below the root with a path, in document order |
| ProjectResults.PropertiesExactly | adk/tools/addon_utils/addon_utils.py:121-131 | a name has a text exactly if some property below the root has the name, and it is the text of the last one |
| ProjectResults.X2pTree | adk/tools/addon_utils/addon_utils.py:191-204 | exactly the incoming files whose path no existing file has are appended, in document order; then each property gets the text of its last incoming namesake merged into its own, and nothing else changes anywhere |
| ProjectResults.MergedHasWords | adk/tools/addon_utils/addon_utils.py:171-189 | every word of an incoming text with plain separators is a word of the merged text |
| ProjectMerge.Project.MergeX2p | adk/tools/addon_utils/addon_utils.py:191-204 | the in-place merge is the merged tree |
| ProjectMerge.X2wKeepsChildren | adk/tools/addon_utils/addon_utils.py:226-238 | the workspace's children stay in order in front, and shallow equality does not tell them from what they were |
| ProjectMerge.X2wIdempotentExactly | adk/tools/addon_utils/addon_utils.py:226-238 | merging the same workspace again finds one dependencies node exactly if no incoming project that equals neither an existing one nor an earlier one holds such a node, and then changes nothing |
| ProjectMerge.NestedDefaultMergesOnce | adk/tools/addon_utils/addon_utils.py:226-238 | two workspaces whose merge cannot be merged with anything again |
| ProjectTrees.DependencyProjectsExactly | adk/tools/addon_utils/addon_utils.py:233 | the projects found are exactly the project children of dependencies children of projects below the root, in the order of the projects that list them |
| ProjectTrees.OtherProjectsExactly | adk/tools/addon_utils/addon_utils.py:236 | exactly the projects below the root with default no, in document order |
| ProjectTrees.TargetsExactly | adk/tools/addon_utils/addon_utils.py:232 | exactly the dependencies children of projects with default yes |
| ProjectResults.HasOneTargetExactly | adk/tools/addon_utils/addon_utils.py:230-232 | a workspace can be merged into exactly if there is one such place in it |
| ProjectResults.X2wDependencies | adk/tools/addon_utils/addon_utils.py:233-235 | the node's children afterwards: the old ones, then the incoming dependencies that resemble neither an old child nor an earlier one, in order |
| ProjectResults.X2wProjects | adk/tools/addon_utils/addon_utils.py:236-238 | the workspace's children afterwards: as many as before, then the incoming projects with default no that resemble neither an old child nor an earlier one, in order |
| ProjectResults.X2wElsewhere | adk/tools/addon_utils/addon_utils.py:226-238 | every other element keeps its place, tag, attributes, text and number of children |
| ProjectMerge.Workspace.MergeX2w | adk/tools/addon_utils/addon_utils.py:226-238 | the in-place merge is the merged tree; without a workspace and exactly one dependencies node it fails and changes nothing |
| KeyReplacement.OnlyTheTwoChange | adk/tools/peer_pair_keygen/peer_pair_keygen.py:155-216 | a replacement, failing or not, touches the replaced file and the backup only |
| KeyReplacement.ReplaceKeepsOriginalExactly | adk/tools/peer_pair_keygen/peer_pair_keygen.py:155-216 | over all failures, success means new content in place and original under the backup name, anything else leaves the original under one of the two: exactly if the backup name is neither file |
| KeyReplacement.FailureUndone | adk/tools/peer_pair_keygen/peer_pair_keygen.py:201-214 | -1 leaves the original in place unless renaming back failed too |
| KeyReplacement.ReplaceSucceedsExactly | adk/tools/peer_pair_keygen/peer_pair_keygen.py:155-216 | a replacement succeeds exactly if each operation it needs does, an earlier backup in the way (error 17) being deleted first |
| KeyReplacement.ReplaceRaisesExactly | adk/tools/peer_pair_keygen/peer_pair_keygen.py:155-216 | it raises exactly if an operation that is reached raises uncaught; every other failure returns -1 |
| KeyReplacement.ReplaceReturns | adk/tools/peer_pair_keygen/peer_pair_keygen.py:155-216 | without an uncaught exception it returns 1 or -1, and for a missing file it changes nothing |
| KeyReplacement.SweepReaches | adk/tools/peer_pair_keygen/peer_pair_keygen.py:218-243 | the first key file of the first project that has a makefile_project or debug configuration and lists one is replaced |
| KeyReplacement.SweepFindsNone | adk/tools/peer_pair_keygen/peer_pair_keygen.py:589-614 | where no project lists one nothing is touched |
| KeyReplacement.SweepRaises | adk/tools/peer_pair_keygen/peer_pair_keygen.py:589-604 | a project that cannot be read, before one that lists a key file, ends the search uncaught |
| KeyReplacement.SweepHits | adk/tools/peer_pair_keygen/peer_pair_keygen.py:589-614 | the project loop replaces the file of the first project that has one, or touches nothing |
| KeyReplacement.OldKeySurvives | adk/tools/peer_pair_keygen/peer_pair_keygen.py:544-604 | whatever fails, a key being replaced is in the key file or in the archive |
| KeyReplacement.GivingUpRestoresKey | adk/tools/peer_pair_keygen/peer_pair_keygen.py:246-267 | giving up puts the old key back if the archive can be read and some project had the file |
| KeyReplacement.GivingUpEndsExactly | adk/tools/peer_pair_keygen/peer_pair_keygen.py:246-267 | giving up extracts the archived key, does nothing without an archive, and raises exactly if extraction does or the archive has no key |
| KeyReplacement.CannotReplaceKey | adk/tools/peer_pair_keygen/peer_pair_keygen.py:544-578 | archiving or deletion that fails ends in failure with the old key in place |
| KeyReplacement.SuccessInstallsKey | adk/tools/peer_pair_keygen/peer_pair_keygen.py:580-620 | success means the project file has the key in use, or the fresh one if writing it succeeded, and the backup its former content, for any backup name but the key file's |
| KeyReplacement.SetUpSucceedsExactly | adk/tools/peer_pair_keygen/peer_pair_keygen.py:544-620 | the program succeeds exactly if there is a key to install, with archiving and deletion of the old one done if it is replaced, and each operation that installs it succeeds |
| KeyReplacement.FreshKeyExactly | adk/tools/peer_pair_keygen/peer_pair_keygen.py:580-620 | success means that the project file has the fresh key, over all files, choices and other failures, exactly if writing it succeeded, raised uncaught, or left the whole key when it failed |
| KeyReplacement.FailedCreationInstalled | adk/tools/peer_pair_keygen/peer_pair_keygen.py:580-583 | whatever a failed key generation leaves behind, or the key that was there before, can be installed with success |
| KeyReplacement.UseKeepsKeyExactly | adk/tools/peer_pair_keygen/peer_pair_keygen.py:589-604 | using an existing key never changes it, exactly if no archive of that name holds a key and the folder is not one whose key file a project may list |
| KeyReplacement.Disk.RenameAndReplaceFile | adk/tools/peer_pair_keygen/peer_pair_keygen.py:155-216 | the sequence of operations and rollback leaves the files and the result of the model |
| KeyReplacement.Disk.ProcessProject | adk/tools/peer_pair_keygen/peer_pair_keygen.py:218-243 | the search over configurations and files replaces the first file wanted |
| KeyReplacement.Disk.RestoreArchive | adk/tools/peer_pair_keygen/peer_pair_keygen.py:246-267 | extracts the key from the archive if there is one |
| KeyReplacement.Disk.SetUpKey | adk/tools/peer_pair_keygen/peer_pair_keygen.py:544-620 | archiving, deleting, creating, installing and restoring as in the model |

## Left out

- headset builds: wired-analogue, USB and DFU included, USB and Bluetooth coexistence and the test builds excluded.
- headset libraries (Bluetooth, pairing, power, user interface): only what they are told and what they answer.
- user interface notifications, connectable requests, ACL closing, multipoint, connect and disconnect inputs: no effect on the state kept here.
- DFU reboot reasons and the delayed power-on after an upgrade: the power-on input is an event that may come at any time.
- real time: a timer may fire at any moment after it was started, link timers in the order they were started.
- system state: sleep, shutdown and emergency shutdown of the system state module, after which the chip is off; a confirmation that would reach a table already replaced, which is proved not to happen.
- stereo topology: its rules, goals and procedures; when it has started or stopped is up to it.
- HeadsetDelete.LockNeverStuck: excludes FACTORY_RESET, whose entry cancels a link timeout and reboots the chip.
- HeadsetPause.HandoverResumes: is for a pause spent in BUSY; an AV or telephony message may move a paused machine to IDLE.
- HeadsetPause.OvertakenExactly: is for a power-off whose table finds POWERING_OFF; a table that finds another state resumes the controller, as PauseStep says.
- handles: SpiSram.RunKeeps assumes that the bit-serial block hands out no handle that is still outstanding.
- serial RAM set-up, the mode register, the read buffer and freeing of cells.
- Thermistor.Sensor.HandleMeasurement: asks for a measured reference before a reading, as the source does; the source would divide by zero otherwise.
- floating point rounding in the table generator: real arithmetic; the exponential is any function with the two properties used.
- I2C failures, which panic, and the amplifier's registers before initialisation; the mute register is kept apart from the others.
- PIO, I2C and bit-serial electrical set-up.
- whitespace is the ASCII whitespace; XML parsing, XPath look-up, attribute filters and pretty-printing.
- ProjectMerge.Project.MergeX2p: elements are values, so that an appended element stays shared with the tree it came from is not captured.
- key generation's random bytes and layout: one text.
- key replacement: the backup name is a plain file name, one project is searched at a time in a given order, and directories, dialogs and argument parsing are not modelled.
