# HillGrow firmware: a verified model

A model of the four parts of the greenhouse firmware that carry state machines and codecs,
with proofs of what they keep. `dafny verify dfyconfig.toml` covers the whole project.

**Codecs.** The CRC-32 and the blob envelope every persisted and transmitted structure
travels in (`Crc32`, `Blob`, over `Bytes`), the table of editable fields with its text codec
(`Text`, `CfgFields`), the JSON export and merge over it (`CfgJson`, `CfgMerge`,
`CfgRoundTrip`, `CfgEdits`), both validators (`CfgValidate`), the error paths with their parser
(`CfgPath`, `CfgLocate`) and batches of field edits (`CfgBatch`).

**The firmware image.** The `zone_fw` partition is NOR flash (`Flash`): erasing sets bits,
writing clears them, and either may break off half-way. `FwImage` says what the validator
accepts, `ZoneTrace` what a sequence of sink calls does to flash at every point where power
could go, `FwSinkZone` and `FwSrv` are the two C files updated in place, `FwInstall` is the
install core under every environment, sink and source, `FwStream` the GETs beside the
writers. `FleetSeq` is the fleet update machine, `FleetLog` the reasons for its reports told
from its log, `Interlock` the install claim against the fleet lock.

**Config reconciliation.** Eight zones, two caches and two latches a zone, one transfer slot,
a write inbox, forwarded console lines. `CfgState` gives one function per C function;
`CfgReconciler` is the same code over mutable fields, each method tied to its function.
`CfgInvariant` and `CfgSystem` prove an invariant of every run over ticks, tracker events,
chunks, heartbeats, operator requests and forwarded replies; `CfgMoves` says what each step
may do to a zone; `CfgConfirm` (which reply makes the master forget a zone's config), `CfgAdopt`,
`CfgWrites` (the operator's writes and pushes), `CfgLatch`, `CfgCooldown` (what a failed attempt
costs), `CfgTransfers`, `CfgScan`, `CfgFairness`, `CfgScanOrder` and `CfgStarvation` hold the
theorems about runs. The tracker is an abstraction (`RingTracker`): a submit is refused or gets
a fresh number, and a number is answered at most once. `Forward` is the one forward in flight,
`ZoneModel` the zone's side.

**Ownership, console, identity.** `CmdTask` is the command pool with the HTTP sessions on top,
in every interleaving of callers and worker; `CliLine`, `CliHistory`, `CliReading` and `CliScreen`
are the console line editor, its history ring, what the typed bytes mean apart from it, and what a
terminal makes of its echo; `Ztab` and `Enrol` the zone-id table and everything that changes it.
`Pigeonhole` is the counting argument the pool and the table share.

## Where the code does less than it says

The model follows the code. Where a promise fails, the condition is
stated and proved:

- The history redraw (components/cli_line/cli_line.c:55-58, sized at components/cli/cli.c:29-33)
  sends four of the five bytes of its erase sequence. The terminal then reads the first letter of
  the recalled line as the end of that sequence. `CliScreen.RecallShowsIff` is the exact condition
  under which the line is right all the same, `CliScreen.FullSequenceRedraws` that the fifth byte
  would mend it.
- The scan that is to bring every zone to the front within one turn
  (components/node_mgr/node_mgr_cfg.c:22-26, 215-227) moves its own start while it runs. A zone in
  line that has nothing to start then carries the later turns past others, and the promise fails
  over any number of scans: `CfgStarvation.Starved`. `CfgFairness.PassedOverIff` is the exact form,
  `CfgScanOrder.NeverLookedIff` the same told from which zones are in line and which of them have
  work, and `CfgFairness.ServedWithinATurn` the promise under its condition, that every scan's first zone
  in line has something to start.
- A latched failure holds while the identity shows, with two exceptions, and `CfgLatch.HeldIff` says
  there is no third. Dropping a cache that was already empty loses the latch without changing the
  identity: `CfgLatch.DropLosesLatch`, `CfgLatch.DroppedPullsAgain`,
  `CfgLatch.DroppedPullsHardwareAgain`. And with the heartbeat at generation 2^32 - 1 over a cache at
  generation 0 a manual push carries generation 0 again; its OK clears the config latch while the
  identity shows on: `CfgLatch.AckLosesLatch`, `CfgLatch.AckedPushesAgain`,
  `CfgLatch.ManualPushAtWrap`.
- The thirty seconds for which a zone is left alone after a failed transfer are lost if the clock
  reads 2^32 - 30000 when it fails: the mark is then 0, which stands for none
  (components/node_mgr/node_mgr_cfg_latch.c:67-74, 113-116). `CfgCooldown.CooldownIff`,
  `CfgCooldown.UnmarkedAtWrap`.
- An accepted write is taken lowest zone first (components/node_mgr/node_mgr_cfg_api.c:47-60), so
  later writes for a lower zone can keep it waiting without bound: `CfgWrites.WriteStarved`.
  `CfgWrites.CarriedWithin` is the bound that counts them.
- Without echo, dropping a stale line leaves its overflow standing
  (components/cli_line/cli_line.c:96-101), and the next line is refused however short it is:
  `CliReading.AbandonedIsRefused`, with the exact condition in `CliReading.RefusedIff`.
- A reply that overtakes the arming of its forward is dropped: `Forward.EarlyEventIsLost`. One that
  comes after it and before the time-out is decided is always returned: `Forward.AnswerIff`.
- A CLEAR whose table cannot be saved frees the id and leaves its node row in use
  (components/node_mgr/node_mgr.c:276-290): `Enrol.ClearInv`, `Enrol.FailedClearLeavesRow`.

Beyond these, the zone-wide paths of the hardware validator cannot be located by the panel's
parser: `CfgPath.HwFaultLocates`.

## Model

| member | source | states |
|---|---|---|
| Crc32.HgCrc32 | components/hg_blob/hg_blob.c:4-13 | the nested byte and bit loop returns the CRC-32 of section 8 of RFC 1952 (the table form), for every seed and buffer |
| Crc32.Chains | components/hg_blob/hg_blob.c:4-13 | feeding a buffer in two parts, the first result as seed of the second, gives the CRC of the whole, for every split |
| Crc32.BitLoopIsTable | components/hg_blob/hg_blob.c:4-13 | the bit-by-bit register and the byte-table register of RFC 1952 agree on all inputs |
| Crc32.RunInjective | components/hg_blob/hg_blob.c:4-13 | two registers that end equal after the same bytes started equal, so a difference is never forgotten |
| Crc32.WindowInjective | components/hg_blob/hg_blob.c:4-13 | from one register, two different windows of up to four bytes never end in the same register |
| Crc32.BurstChangesCrc | components/hg_blob/hg_blob.c:4-13 | replacing up to four consecutive bytes anywhere by different ones always changes the CRC |
| Blob.HgBlobWrap | components/hg_blob/hg_blob.c:20-32 | a buffer that is too small is left alone and 0 returned; otherwise the 16-byte header and the payload are written and nothing behind them is touched |
| Blob.HgBlobUnwrap | components/hg_blob/hg_blob.c:34-51 | the output buffer receives the zero-extended payload when the blob is accepted and is untouched on every error |
| Blob.FieldsOfWrap | components/hg_blob/hg_blob.c:20-32 | each header field of a wrapped blob reads back as what was wrapped, whatever follows the blob |
| Blob.UnwrapWrap | components/hg_blob/hg_blob.c:20-51 | unwrap undoes wrap: OK for the same version and size, MIGRATED with the payload zero-extended for an older or shorter one |
| Blob.UnwrapWrongVersion | components/hg_blob/hg_blob.c:34-51 | a wrapped blob outside the version window is refused, and the three refusals are told apart |
| Blob.AcceptedIsWrapped | components/hg_blob/hg_blob.c:34-51 | the converse: every accepted byte string is a wrapped blob, in the version window, with what unwrap returned as its payload |
| Blob.BurstInPayloadIsRefused | components/hg_blob/hg_blob.c:20-51 | a wrapped blob with up to four consecutive payload bytes corrupted always unwraps to the CRC error |
| Flash.Partition.EraseRange | components/panel_svc/fw_sink_zone.c:69-106 | NOR erase as the sinks use it: whole sectors go to 0xFF, a failure leaves a prefix of the sectors erased |
| Flash.Partition.Write | components/panel_svc/fw_sink_zone.c:108-151 | NOR programming as the sinks use it: bits are only cleared, a failure leaves a prefix of the bytes programmed |
| FwImage.TornHeader | components/fw_srv/fw_srv.c:69-93 | a header programmed up to any byte over erased cells is no image, or already the complete one |
| FwImage.ErasedMagic | components/fw_srv/fw_srv.c:69-93 | a partition with an erased magic byte holds no image |
| FwSrv.ValidateImage | components/fw_srv/fw_srv.c:69-93 | accepts only a partition holding an image, with its length, though it chunks the CRC its own way; unless a read failed it refuses only one that holds none |
| FwSrv.Server.Revalidate | components/fw_srv/fw_srv.c:146-156 | the published verdict agrees with the flash afterwards, and is bad only for want of an image or after a failed read |
| FwSrv.Server.WriterClaim | components/fw_srv/fw_srv.c:158-164 | granted exactly when no writer holds the partition and no stream is running |
| FwSrv.Server.WriterRelease | components/fw_srv/fw_srv.c:166-174 | no writer afterwards |
| FwSrv.Server.ImageOk | components/fw_srv/fw_srv.c:325-330 | good verdict and no writer |
| FwSrv.Server.SendAll | components/fw_srv/fw_srv.c:104-135 | what was sent is a prefix of the buffer in order, success means all of it, and failure that the socket was cut |
| FwSrv.Server.SendBody | components/fw_srv/fw_srv.c:267-279 | the chunk loop sends a prefix of the image body, completes exactly when every announced byte went out, and stops short only for the socket or the flash |
| FwSrv.Server.ZoneBinGet | components/fw_srv/fw_srv.c:237-287 | a GET is admitted exactly on a good image with no writer; it announces the image's length, sends a prefix of it, gives its streaming count back on every path, and is cut short only by the socket or the flash |
| ZoneTrace.CallSafe | components/panel_svc/fw_sink_zone.c:69-158 | every sink call, done or broken off, leaves no image at each of its flash operations before the finish, and keeps the phase invariant |
| ZoneTrace.CutAnywhere | components/panel_svc/fw_sink_zone.c:69-158 | for any call sequence in protocol order, every prefix of its flash operations leaves no image, the new image, or nothing changed |
| ZoneTrace.PowerCut | components/panel_svc/fw_sink_zone.c:69-158 | cut after any flash operation: the old image if nothing was done, otherwise no image or, once finish was called, exactly the bytes written |
| ZoneTrace.FinishedImage | components/panel_svc/fw_sink_zone.c:120-151 | after a successful finish the validator's image is exactly the concatenated writes |
| FwSinkZone.Sink.EraseHeader | components/panel_svc/fw_sink_zone.c:69-82 | the verdict is dropped with the header sector; a failed erase touches neither, and only a fault of the flash makes it fail |
| FwSinkZone.Sink.Begin | components/panel_svc/fw_sink_zone.c:84-106 | the operations performed are those of the traced begin call, header sector first; it fails only on a fault of the flash |
| FwSinkZone.Sink.Write | components/panel_svc/fw_sink_zone.c:108-118 | the operations performed are those of the traced write call, behind all earlier bytes, with the chained CRC kept equal to that of everything written; it succeeds exactly when the bytes fit and the flash did not fail |
| FwSinkZone.Sink.Finish | components/panel_svc/fw_sink_zone.c:120-151 | success means the verdict is published good, the length is that of the writes, and the flash holds exactly their image; it fails only on a fault of the flash or when nothing was written |
| FwSinkZone.Sink.Cancel | components/panel_svc/fw_sink_zone.c:153-158 | the verdict is bad afterwards and, if the erase worked, as it does unless the flash failed, no image remains |
| FwInstall.Install | components/panel_svc/psvc_fw.c:27-101 | for every environment, source and sink: each claim taken is released exactly once and in order, begin only after the identity held, writes are a prefix of the source in order and all of it on OK, cancel exactly when begun and not OK, each failure code exactly its cause, and OK exactly when the source brings the whole file, the identity holds, zone_fw is free and no sink call fails |
| FwInstall.GuardIff | components/panel_svc/psvc_fw.c:37-55 | who is let in, told from the five answers, and which of them each refusal names |
| FwInstall.NotFed | components/panel_svc/psvc_fw.c:63-78 | a source stopped at a stall, an error or too many bytes is none that brings the whole file |
| FwInstall.Receive | components/panel_svc/psvc_fw.c:62-93 | the receive loop: a stall or an error is the answer it stopped at, all answers before brought no more than was asked for, and the identity was judged once, on what there was when there first was enough |
| FwInstall.Stream | components/panel_svc/psvc_fw.c:62-97 | the streaming half: writes are whole 4 KB blocks and then the rest, with the sink's own answers, and a write failure is reported exactly when a sink call failed |
| FwInstall.InstallZone | components/panel_svc/psvc_fw.c:27-101 | a whole zone install cut after any flash operation leaves the old image, none, or the complete new one of the announced length; OK means exactly the source's bytes |
| FwStream.ProgramKeepsFresh | components/panel_svc/fw_sink_zone.c:69-158 | through every flash operation and publication of a writer, a published good verdict is never stale |
| FwStream.InvStep | components/fw_srv/fw_srv.c:158-287 | every step of GETs and writers keeps the interleaving invariant; while a stream is live the flash and the stream's image stand still |
| FwStream.RunInv | components/fw_srv/fw_srv.c:158-287 | the invariant holds in every state of every interleaving |
| FwStream.FlashFrozenUnderStream | components/fw_srv/fw_srv.c:158-174 | no step in any run erases or programs a byte while a stream is live |
| FwStream.CompletedStreamIsExact | components/fw_srv/fw_srv.c:237-287 | a stream that completes delivered exactly the image whose verdict admitted it, and its announced length is that many bytes |
| FwStream.AdmittedIff | components/fw_srv/fw_srv.c:158-164 | in any run a GET is let in exactly on a good verdict with no writer, a writer exactly when nobody writes or streams |
| FwStream.StreamGoesOn | components/fw_srv/fw_srv.c:104-135 | in any run a live stream can always take its next step: send any part of what it has read, read the next 4 KB when that is out, end when all is out |
| FwStream.WriterEnds | components/fw_srv/fw_srv.c:158-174 | in any run a writer can always take the next step of its program, and at its end let go of the partition |
| FwStream.ProgramOps | components/panel_svc/fw_sink_zone.c:69-158 | broken into steps, with publications in between, a writer does to the flash what its sink calls do |
| FwStream.FinishPublishes | components/panel_svc/fw_sink_zone.c:120-151 | what a finished writer last publishes is a good verdict exactly when the flash holds an image, with its length |
| FwStream.InstalledIsServed | components/fw_srv/fw_srv.c:146-174 | after a finished install, whatever ran beside it, the verdict is good and the flash holds the bytes that were written: the next GET is handed those |
| FwStream.AdmittedLengthIsTrue | components/fw_srv/fw_srv.c:237-287 | whenever a GET would be admitted, the flash holds an image of the published length |
| FleetSeq.Sequencer.Start | components/node_mgr/fleet_seq.c:15-24 | refused when active or when the list is empty or too long, and then nothing changes; otherwise the run over that list begins |
| FleetSeq.Sequencer.TickOnce | components/node_mgr/fleet_seq.c:42-89 | one tick is the Tick step of the machine below, output included |
| FleetSeq.Sequencer.OnAck | components/node_mgr/fleet_seq.c:91-101 | an ACK is the Ack step: only the sequence number of the current submit counts |
| FleetSeq.Sequencer.NoteSubmitted | components/node_mgr/fleet_seq.c:103-115 | noting a submit is the Submitted step |
| FleetSeq.Sequencer.CancelRun | components/node_mgr/fleet_seq.c:26-30 | cancelling is the Cancel step |
| FleetSeq.RunSaid | components/node_mgr/fleet_seq.c:36-115 | over every event sequence the reports are START/DONE pairs of the listed zones in order, at most one open, possibly ending in one FAILED |
| FleetSeq.NothingAfterFailed | components/node_mgr/fleet_seq.c:36-89 | a FAILED report is the last one, and the machine is idle |
| FleetSeq.NoStartAfterCancel | components/node_mgr/fleet_seq.c:26-89 | no event after a cancel ever reports START |
| FleetSeq.DoneIsEarned | components/node_mgr/fleet_seq.c:42-101 | DONE comes only on a tick with a heartbeat that arrived after the matching ACK of that zone and shows a new version or a fresh uptime |
| FleetSeq.AckIsForOwnSubmit | components/node_mgr/fleet_seq.c:91-115 | when each START is followed by its submit, the accepted ACK carries the sequence number submitted for that zone |
| FleetSeq.LeftDecreases | components/node_mgr/fleet_seq.c:36-115 | no event raises the remaining work and every phase change lowers it |
| FleetSeq.MovesBounded | components/node_mgr/fleet_seq.c:36-115 | a run makes at most three phase changes a zone |
| FleetLog.ReportIff | components/node_mgr/fleet_seq.c:42-115 | the exact reason for every report, told from the events and the reports before: START, a tick with image good and zone ONLINE while the run goes on and no zone is under way; FAILED, such a tick without one of the two, a refused submit, a refused ACK with the noted number, or a tick three minutes past the submit that shows no update; DONE, a tick that shows it |
| FleetLog.ActiveIff | components/node_mgr/fleet_seq.c:15-40 | a run is over exactly when something has failed, every zone is done, or it was cancelled with no zone under way since |
| FleetLog.TimesMean | components/node_mgr/fleet_seq.c:64-84 | the wrap-safe comparisons in milliseconds passed |
| Interlock.IdleText | components/node_mgr/fleet_seq.c:119-123 | the status text is IDLE exactly when no sequence is active |
| Interlock.StartVerdict | components/node_mgr/fleet_seq.c:15-24 | a start goes ahead exactly with no install, no sequence and one to eight zones; busy is reported before a bad list |
| Interlock.CollectUsed | components/node_mgr/node_mgr_fleet.c:160-169 | the list built is every used id, ascending |
| Interlock.FleetGlue.Claim | components/panel_svc/psvc_fw_env.c:19-25 | test and set: the flag is set afterwards and only one caller got it |
| Interlock.FleetGlue.FleetIdle | components/panel_svc/psvc_fw_env.c:40-44 | reports idle exactly when no sequence is active |
| Interlock.FleetGlue.FwZone | components/node_mgr/node_mgr_fleet.c:151-158 | a bad zone changes nothing; otherwise the start is decided with the install flag read under the lock |
| Interlock.FleetGlue.FwAll | components/node_mgr/node_mgr_fleet.c:160-174 | no used zone: nothing changes; otherwise the start is over exactly the used ids |
| Interlock.FleetGlue.FwAbort | components/node_mgr/node_mgr_fleet.c:176-182 | aborting cancels the run, and says so exactly when one is active |
| Interlock.InvStep | components/panel_svc/psvc_fw_env.c:19-44 | each atomic step of any number of installs and starts keeps the interlock invariant |
| Interlock.NeverTogether | components/panel_svc/psvc_fw.c:37-53 | in no interleaving is an install past its fleet-idle guard while a sequence is active, or two installs at once |
| Interlock.ClaimIff | components/panel_svc/psvc_fw_env.c:19-31 | in any run an install gets the claim exactly when no other has it, and a release leaves it with nobody |
| Interlock.IdleGuardIff | components/panel_svc/psvc_fw.c:37-41 | an install comes past its fleet-idle guard exactly when no sequence is active as it gives the lock back |
| Interlock.StartIff | components/node_mgr/node_mgr_fleet.c:151-174 | a fleet start goes ahead exactly when at its gate no install had the claim, no sequence was active and the list will do; busy is reported exactly for one of the first two |
| Interlock.NobodyStuck | components/node_mgr/node_mgr_fleet.c:151-189 | in any reachable state with a call unfinished, some install or start can take its next step |
| Interlock.ExactlyOneLoses | components/node_mgr/node_mgr_fleet.c:151-174 | an install and a start that meet: once both have decided, exactly one of them went ahead |
| Forward.VerbIsFirstWord | components/node_mgr/node_mgr_fwd.c:50-54 | the pointer walk says SET exactly when the first word of the line is SET in any case |
| Forward.Forwarder.FwdOnEv | components/node_mgr/node_mgr_fwd.c:64-88 | an event is taken only by the armed sequence number; the waiter is woken exactly then; an OK reply to a SET yields the zone to adopt |
| Forward.Forwarder.ArmFor | components/node_mgr/node_mgr_fwd.c:115-119 | arming sets the whole hand-off state in one critical section |
| Forward.Forwarder.TimedOut | components/node_mgr/node_mgr_fwd.c:121-130 | giving up is decided by the done flag: it disarms, or finds the answer already there |
| Forward.InvStep | components/node_mgr/node_mgr_fwd.c:64-154 | every step of caller and completion hook keeps the hand-off invariant |
| Forward.ReplyIsOwn | components/node_mgr/node_mgr_fwd.c:96-154 | in every interleaving the reply given to a caller answers the event the hook took for its own submit, and is ZONE_TIMEOUT only if it took none |
| Forward.AnswerIff | components/node_mgr/node_mgr_fwd.c:16-19 | exactly when an answer gets through: a finished call returns the answer of the first event with its own number processed after arming and before its time-out is decided, and ZONE_TIMEOUT if there was none |
| Forward.TakenIff | components/node_mgr/node_mgr_fwd.c:64-88 | the event the hook takes is the first in time, and that one it always takes |
| Forward.EarlyEventIsLost | components/node_mgr/node_mgr_fwd.c:112-119 | an event that comes between submit and arming is dropped, and a caller that hears nothing more times out |
| CfgEnvelope.CfgUnwraps | components/node_mgr/node_mgr_cfgx.c:85-187 | a config blob built for a cache unwraps to its payload and generation |
| CfgEnvelope.StampKeeps | components/node_mgr/node_mgr_cfgx.c:135-154 | stamping a push changes the generation and source bytes and no setting |
| CfgInvariant.CfgCacheUnwraps | components/node_mgr/node_mgr_cfgx.c:85-187 | a valid config cache unwraps cleanly with its recorded generation and payload CRC |
| CfgInvariant.HwCacheUnwraps | components/node_mgr/node_mgr_cfgx.c:85-133 | a valid hardware cache unwraps cleanly with its recorded CRC |
| CfgInvariant.AcceptPullInv | components/node_mgr/node_mgr_cfgx.c:85-133 | accepting or refusing any pulled bytes keeps the invariant |
| CfgInvariant.AcceptPushInv | components/node_mgr/node_mgr_cfgx.c:176-187 | adopting an acknowledged push keeps the invariant |
| CfgInvariant.TickInv | components/node_mgr/node_mgr_cfg.c:181-228 | a whole tick keeps the invariant |
| CfgInvariant.EventInv | components/node_mgr/node_mgr_cfgx.c:245-264 | a tracker event keeps the invariant, current or stale |
| CfgInvariant.ChunkInv | components/node_mgr/node_mgr_cfgx.c:237-243 | a chunk result keeps the invariant |
| CfgInvariant.InvalidateInv | components/node_mgr/node_mgr_cfg.c:120-129 | dropping a zone's caches keeps the invariant |
| CfgSystem.InvStep | components/node_mgr/node_mgr_cfg.c:79-238 | ticks, events, chunks, heartbeats, writes, clears, pushes and forwarded lines: each keeps the invariant |
| CfgSystem.RunInv | components/node_mgr/node_mgr_cfg.c:79-238 | the invariant holds in every state of every run |
| CfgConfirm.ReplyForgetsIff | components/node_mgr/node_mgr_fwd.c:64-88 | exactly which reply drops a zone's caches, told from the run's actions: the OK, alone or with more after a blank or a line end, to a line whose first word is SET, forwarded to that zone and still waited for; any other leaves zone and transfer alone |
| CfgConfirm.DropsIff | components/node_mgr/node_mgr_cfg.c:120-154 | the drops of the run theorems below are such a reply, or a tick after a clear asked for since the last one, and nothing else |
| CfgAdopt.PullMeansEmpty | components/node_mgr/node_mgr_cfg.c:79-104 | in every run a config pull is in the slot only while that zone's config cache is invalid, and a push in the slot is always the current cache's |
| CfgAdopt.SettingsKept | components/node_mgr/node_mgr_cfg.c:79-228 | between drops and operator writes the cached settings of a zone do not change, over any stretch of any run |
| CfgAdopt.WriteNotLost | components/node_mgr/node_mgr_cfg_api.c:47-66 | an accepted write is still queued or was carried into the cache as written, unless its id is cleared |
| CfgAdopt.ConfirmedSetForgets | components/node_mgr/node_mgr_fwd.c:64-88 | after such a reply nothing of the zone's config is left at the master: no cache, latch, cooldown, transfer or unsent frame |
| CfgAdopt.NextIsAdoption | components/node_mgr/node_mgr_cfg.c:79-129 | after such a reply the first transfer started for the zone is an automatic config pull, or an operator's own write |
| CfgAdopt.NoStalePush | components/node_mgr/node_mgr_cfgx.c:135-216 | after such a reply every push in the slot for the zone carries settings that came into the cache after it, by a pull or by a write carried out then |
| CfgAdopt.CacheHasSource | components/node_mgr/node_mgr_cfgx.c:85-187 | a cache that became valid holds the settings some pull or write put there since |
| CfgAdopt.StartsIff | components/node_mgr/node_mgr_cfg.c:181-228 | a start, told from the slot: free when the tick came, the zone's afterwards, at the first attempt |
| CfgWrites.SetVerdict | components/node_mgr/node_mgr_cfg_api.c:132-151 | a write is accepted exactly for a zone in use and ONLINE with no write queued and no transfer of its own; the three refusals are told apart |
| CfgWrites.PushVerdict | components/node_mgr/node_mgr_cfg.c:230-239 | a manual push is accepted exactly for a zone with a cached config, and the last one accepted counts |
| CfgWrites.WriteBegins | components/node_mgr/node_mgr_cfg.c:195-202 | the tick that finds the slot free and a write queued caches the lowest such zone's payload and begins the push of it, whatever else is asked for; the other writes wait on |
| CfgWrites.ManualBegins | components/node_mgr/node_mgr_cfg.c:204-213 | with no write queued it begins the manual push asked for, of the cache as it is |
| CfgWrites.PushNumbers | components/node_mgr/node_mgr_cfg.c:64-72 | such a push carries one generation past the larger of heartbeat and cache, 0 counting for a row that is gone, and freezes that heartbeat's identity with that of the cache pushed |
| CfgWrites.AskedFor | components/node_mgr/node_mgr_cfg.c:182-185 | which push a tick finds asked for: the request accepted last since the tick before |
| CfgWrites.ChanceIff | components/node_mgr/node_mgr_cfg_api.c:47-60 | at a tick with the slot free a waiting write is the one carried out if and only if none waits for a lower zone |
| CfgWrites.WaitingLaw | components/node_mgr/node_mgr_cfg_api.c:47-60 | while a write waits, each tick with the slot free uses up a write ahead of it, and only later writes for lower zones join those |
| CfgWrites.CarriedWithin | components/node_mgr/node_mgr_cfg_api.c:47-60 | so an accepted write is carried out within as many such ticks as there are writes ahead of it, plus one, plus one for each later write accepted for a lower zone |
| CfgWrites.WriteStarved | components/node_mgr/node_mgr_cfg_api.c:47-60 | and without a bound on those there is none: for every n a run in which zone 2's accepted write is still waiting after n ticks with the slot free |
| CfgCooldown.AttemptFailed | components/node_mgr/node_mgr_cfgx.c:63-72 | a failed attempt leaves the next one due one, two or four seconds later; after the fourth the slot is free and the zone marked |
| CfgCooldown.TransferEndsIff | components/node_mgr/node_mgr_cfgx.c:50-265 | a transfer leaves the slot exactly when its caches are dropped, it succeeds, it is refused for good, or its fourth attempt fails |
| CfgCooldown.LadderWaits | components/node_mgr/node_mgr_cfgx.c:218-235 | over any stretch of a run, no tick before that time touches the waiting attempt, whatever else arrives |
| CfgCooldown.RetryTick | components/node_mgr/node_mgr_cfgx.c:218-235 | the first tick at or past it submits the attempt again, with its frame, or waits a second more if the tracker is full |
| CfgCooldown.GaveUp | components/node_mgr/node_mgr_cfg_latch.c:101-116 | giving up marks the zone until 30000 ms after the clock of that step |
| CfgCooldown.CooldownIff | components/node_mgr/node_mgr_cfg.c:25-28 | rule (b): after that, as long as nothing drops its caches or writes it, the zone is in line again exactly when it was heard, answers, and the tick is at or past the mark; before that no automatic transfer of either plane starts for it; the one exception is a mark of 0 |
| CfgCooldown.UnmarkedAtWrap | components/node_mgr/node_mgr_cfg_latch.c:67-74 | the input for the exception: given up at clock 4294937296 the zone is not marked |
| CfgCooldown.BeginFreezes | components/node_mgr/node_mgr_cfg.c:79-104 | an automatic transfer is begun under the generations and CRCs that heartbeat and cache show then |
| CfgLatch.DecisionIff | components/node_mgr/node_mgr_cfg.c:79-104 | the decision for one zone, both directions: a plane that failed for good is left out only while none of the numbers it failed under has changed |
| CfgLatch.FailureHolds | components/node_mgr/node_mgr_cfg_latch.c:101-122 | a terminal failure frees the slot and latches its plane under the identity frozen when the transfer began |
| CfgLatch.HeldStep | components/node_mgr/node_mgr_cfg_latch.c:76-122 | while the identity still shows, no step other than a drop of the zone's caches or, for config, an acknowledged push loosens the latch or starts an automatic transfer of that plane, however the other plane fares |
| CfgLatch.HeldIff | components/node_mgr/node_mgr_cfg_latch.c:76-122 | while the identity shows, a step keeps the latch if and only if it is neither a drop of the zone's caches nor, for config, an acknowledged push; the first is possible only for the identity of an empty cache, the second only at heartbeat generation 2^32 - 1 over cache generation 0 |
| CfgLatch.HeldThroughoutIff | components/node_mgr/node_mgr_cfg_latch.c:76-122 | over a stretch in which the identity shows, the latch holds throughout if and only if nothing in it is a drop or an acknowledged config push |
| CfgLatch.HeldRun | components/node_mgr/node_mgr_cfg_latch.c:76-122 | over any stretch of any run in which the identity shows, the latch holds and that plane is started nothing; drops matter only for the identity of an empty cache, acknowledged pushes only for the one at the wrap |
| CfgLatch.NoAutomaticRetry | components/node_mgr/node_mgr_cfg_latch.c:76-122 | after a terminal failure no automatic transfer of that plane starts while heartbeat and cache show the frozen identity; only for the identity of an empty cache does it take that nothing is dropped, and only for the one at the wrap that no config push is acknowledged |
| CfgLatch.DropLosesLatch | components/node_mgr/node_mgr_cfg.c:120-129 | a drop clears the latch, and the frozen identity goes on showing exactly when it was the one of an empty cache |
| CfgLatch.DroppedPullsAgain | components/node_mgr/node_mgr_cfg.c:120-129 | in that case the drop does set off the config pull again: a family of concrete states |
| CfgLatch.DroppedPullsHardwareAgain | components/node_mgr/node_mgr_cfg.c:79-129 | the same for the hardware plane: after the drop config is pulled first, and with any config in the cache the refused hardware blob is pulled again |
| CfgLatch.AckLosesLatch | components/node_mgr/node_mgr_cfgx.c:176-187 | the OK of a config push clears the config latch, and the identity goes on showing exactly when the push carried the cache's own generation and its payload stamped again has the cache's CRC |
| CfgLatch.AckedPushesAgain | components/node_mgr/node_mgr_cfg.c:64-104 | in that case, at the wrap, the refused push comes back by itself before the next heartbeat: a family of concrete states |
| CfgLatch.ManualPushAtWrap | components/node_mgr/node_mgr_cfg.c:64-104 | the whole course from a quiet state: latched at the wrap the decision starts nothing; the operator's push is made with generation 0; on its OK the decision pushes again |
| CfgTransfers.BeginsIdle | components/node_mgr/node_mgr_cfg.c:79-104 | a transfer begins only into a slot that is idle, or idle once the queued clears of this tick are done, at attempt one |
| CfgTransfers.AtMostFourSubmits | components/node_mgr/node_mgr_cfgx.c:50-83 | in every run one transfer gets at most four submits the tracker accepts |
| CfgTransfers.AnswersUseRank | components/node_mgr/node_mgr_cfgx.c:203-264 | every accepted submit, tracker answer, stream result or expiry uses up part of a transfer's bounded rank |
| CfgTransfers.TransferEnds | components/node_mgr/node_mgr_cfgx.c:203-264 | after twelve such events without a new transfer the slot is idle |
| CfgTransfers.AckIsForCurrentCommit | components/node_mgr/node_mgr_cfgx.c:245-264 | only the OK ACK for the current attempt's sequence number changes a config cache, and the acknowledged frame carried exactly what the cache becomes |
| CfgTransfers.PushGenAhead | components/node_mgr/node_mgr_cfg.c:64-72 | below the 32-bit wrap a push generation is above both the heartbeat's and the cache's |
| CfgTransfers.PushBeginsAhead | components/node_mgr/node_mgr_cfgx.c:135-174 | every push begins with that generation, and a submitted one awaits a commit frame with that generation and wire |
| CfgTransfers.AckedPushInSync | components/node_mgr/node_mgr_cfgx.c:176-187 | if the zone applies an acknowledged push verbatim, its next heartbeat shows the cache's identity and the latch is clear |
| CfgTransfers.PulledInSync | components/node_mgr/node_mgr_cfgx.c:85-133 | a pulled cache is in sync with the zone it was pulled from |
| CfgTransfers.InSyncIsFixpoint | components/node_mgr/node_mgr_cfg.c:79-104 | an in-sync zone is started no automatic config transfer |
| CfgTransfers.EditLeavesSync | components/hg_model/hg_model.c:68-91 | an edit at the zone always shows: its next heartbeat is out of sync with the cache |
| CfgScan.GateDecides | components/node_mgr/node_mgr_cfg.c:217-225 | what one turn of the scan does to freshness and to the start of the next scan |
| CfgScan.FirstIsServed | components/node_mgr/node_mgr_cfg.c:215-227 | the first zone in line is decided on, whatever precedes it |
| CfgScan.WaitShrinks | components/node_mgr/node_mgr_cfg.c:215-227 | one scan: when its first zone in line starts a transfer, every other zone in line is strictly nearer the front of the next |
| CfgScan.FreshLeft | components/node_mgr/node_mgr_cfg.c:215-227 | a scan that starts nothing leaves fresh exactly the zones it never examined |
| CfgScan.CoversAllIff | components/node_mgr/node_mgr_cfg.c:215-227 | a scan examines all eight zones exactly when none of the first seven in its order was in line |
| CfgScan.SkippedNeighbour | components/node_mgr/node_mgr_cfg.c:215-227 | concrete case of one scan: an in-sync zone in line makes it pass over its neighbour, which had work; the next scan starts there |
| CfgFairness.TurnLaw | components/node_mgr/node_mgr_cfg.c:217-225 | the scan in closed form: turn k looks k places past the start, plus f + 1 places for every earlier turn f that found a zone in line |
| CfgFairness.ScanLaw | components/node_mgr/node_mgr_cfg.c:217-227 | a scan follows those turns up to the first that starts something, starts that, and leaves the next start where they carried it |
| CfgFairness.VisitedIff | components/node_mgr/node_mgr_cfg.c:217-227 | exactly which zones one scan looks at |
| CfgFairness.ServedIff | components/node_mgr/node_mgr_cfg.c:79-104 | for a zone in line with work to do, being looked at and being started a transfer are the same |
| CfgFairness.CarryLaw | components/node_mgr/node_mgr_cfg.c:181-228 | nothing but a scan moves the start, and a scan moves it by its shift |
| CfgFairness.PassedOverIff | components/node_mgr/node_mgr_cfg.c:22-26 | exactly when a zone is passed over, over any stretch of any run: no turn of any scan in it reaches the zone's place, counted from the first start through all shifts |
| CfgFairness.BoundedWait | components/node_mgr/node_mgr_cfg.c:22-26 | while a zone stays in line and every scan's first zone in line has work to start, each scan that passes it over takes a place off its wait |
| CfgFairness.ServedWithinATurn | components/node_mgr/node_mgr_cfg.c:22-26 | so at most as many such scans as it has places to go, seven at the most, come before the one that starts its transfer |
| CfgScanOrder.TurnsAreLooked | components/node_mgr/node_mgr_cfg.c:215-227 | the turns of a scan, and where they leave the start, are those of a recursion over two lists alone: the zones in line at first, and those with something to start |
| CfgScanOrder.VisitedIsLooked | components/node_mgr/node_mgr_cfg.c:215-227 | which zones a whole scan looks at, and the start it leaves, told from those two lists |
| CfgScanOrder.NeverLookedIff | components/node_mgr/node_mgr_cfg.c:22-26 | who is passed over, from the lists: over any stretch of any run no scan looks at x exactly when none of its scans' lists spells x out, each from the start the earlier lists have left |
| CfgStarvation.Starved | components/node_mgr/node_mgr_cfg.c:22-26 | rule (a) fails without that condition: from any power-on state in which boards 1, 5, 7 and 8 answer there is, for every n, a run with 2n scans, exactly two of them between a heartbeat of a board and its next, that all find zone 1 in line with its config to adopt and never look at it |
| CfgStarvation.RoundsKeepPace | components/node_mgr/node_mgr_cfg.c:22-26 | any stretch made of whole rounds of heartbeats and ticks keeps that pace: from any heartbeat of a board to its next there are two scans |
| CfgStarvation.LatchPlane | components/node_mgr/node_mgr_cfgx.c:85-133 | how boards 5, 7 and 8 come to be in line with nothing to start: an envelope of a newer layout latches the plane and changes nothing else |
| CfgStarvation.ScanFromSix | components/node_mgr/node_mgr_cfg.c:217-227 | the scan from 6 with 7 in line, settled, and 1 in line: it starts nothing and leaves 1 heard, the next start at 8 |
| CfgStarvation.ScanFromEight | components/node_mgr/node_mgr_cfg.c:217-227 | the scan from 8 with 5 and 8 in line, settled, and 1 in line: it starts nothing and leaves 1 heard, the next start back at 6 |
| CfgReconciler.Reconciler.NoteSyncedAt | components/node_mgr/node_mgr_cfg_latch.c:84-99 | success clears that plane's latch and leaves everything else of the zone as it was |
| CfgReconciler.Reconciler.NoteFailedAt | components/node_mgr/node_mgr_cfg_latch.c:101-122 | failure arms the cooldown, and the latch when terminal |
| CfgReconciler.Reconciler.CoolingDown | components/node_mgr/node_mgr_cfg_latch.c:69-74 | expired cooldowns are forgotten, by wrap-safe difference, and no other zone is touched |
| CfgReconciler.Reconciler.FailOrRetryNow | components/node_mgr/node_mgr_cfgx.c:65-71 | the retry ladder's step, its backoff index always in range |
| CfgReconciler.Reconciler.StartPullNow | components/node_mgr/node_mgr_cfgx.c:73-83 | a pull request is submitted and awaited, or put on the ladder |
| CfgReconciler.Reconciler.AcceptPullNow | components/node_mgr/node_mgr_cfgx.c:85-133 | a pulled blob is adopted or fails, terminally or not, exactly as specified |
| CfgReconciler.Reconciler.StartPushNow | components/node_mgr/node_mgr_cfgx.c:135-174 | the wire is rebuilt from the cache under the push generation, submitted and awaited, or put on the ladder |
| CfgReconciler.Reconciler.AcceptPushNow | components/node_mgr/node_mgr_cfgx.c:176-187 | the acknowledged wire becomes the cache |
| CfgReconciler.Reconciler.AbortFor | components/node_mgr/node_mgr_cfgx.c:203-216 | a transfer for the zone is dropped and its tracked frame cancelled; another zone's is left |
| CfgReconciler.Reconciler.CxTick1s | components/node_mgr/node_mgr_cfgx.c:218-235 | one tick of the slot |
| CfgReconciler.Reconciler.CfgOnChunk | components/node_mgr/node_mgr_cfgx.c:237-243 | chunk results reach only a pull in stream |
| CfgReconciler.Reconciler.CfgOnEv | components/node_mgr/node_mgr_cfgx.c:245-264 | tracker events reach only the awaited sequence number |
| CfgReconciler.Reconciler.InvalidateZone | components/node_mgr/node_mgr_cfg.c:120-129 | an id out of range changes nothing; otherwise both caches, the latches and the transfer go |
| CfgReconciler.Reconciler.ClearZone | components/node_mgr/node_mgr_cfg.c:135-140 | clearing also drops the queued write |
| CfgReconciler.Reconciler.StartSetReq | components/node_mgr/node_mgr_cfg.c:162-179 | an operator's write replaces the cached settings under a new generation and is pushed at once |
| CfgReconciler.Reconciler.TryStartFor | components/node_mgr/node_mgr_cfg.c:79-104 | the decision order: config pull, hardware pull, nothing to push from, in sync, latched, push |
| CfgReconciler.Reconciler.RunClears | components/node_mgr/node_mgr_cfg.c:181-193 | the loop carries out every queued clear |
| CfgReconciler.Reconciler.TakeSetReq | components/node_mgr/node_mgr_cfg_api.c:47-59 | the lowest queued write is taken, once |
| CfgReconciler.Reconciler.ScanZones | components/node_mgr/node_mgr_cfg.c:215-227 | the scan with its moving start, as specified |
| CfgReconciler.Reconciler.Tick1s | components/node_mgr/node_mgr_cfg.c:181-228 | the whole tick in the order of the code |
| CfgReconciler.Reconciler.CfgSetReq | components/node_mgr/node_mgr_cfg_api.c:132-151 | admission of a write |
| CfgReconciler.Reconciler.PushCfgReq | components/node_mgr/node_mgr_cfg.c:230-238 | admission of a manual push |
| CfgReconciler.Reconciler.CfgGet | components/node_mgr/node_mgr_cfg_api.c:72-111 | hands out exactly the cached payload and generation, and the hardware payload exactly when that cache is valid |
| ZoneModel.Model.ApplyCfg | components/hg_model/hg_model.c:122-128 | a pushed config is applied verbatim and marked dirty |
| ZoneModel.Model.Edit | components/hg_model/hg_model.c:68-91 | a refused edit changes nothing; a changing one gets the next generation |
| ZoneModel.Model.CfgInfo | components/hg_model/hg_model.c:150-157 | reports the generation and payload CRC of what is applied |
| ZoneModel.GenNextIs | components/hg_model/hg_model.c:26-28 | the next generation is one up, never 0, and 1 again exactly after 0 and after the last |
| ZoneModel.EditShows | components/hg_model/hg_model.c:26-91 | after an edit the reported generation differs, is not zero, and the settings are the edited ones |
| CmdTask.Pool.TryClaim | components/cmd_task/cmd_task.c:58-61 | the first free slot is claimed, others untouched; none free, nothing changes |
| CmdTask.Pool.WorkerDone | components/cmd_task/cmd_task.c:38-43 | done is set and the slot freed exactly when no caller waits |
| CmdTask.Pool.TimedOut | components/cmd_task/cmd_task.c:73-87 | the caller orphans the slot exactly when it is not done |
| CmdTask.Pool.ClaimSession | components/http_srv/http_cmd.c:68-75 | the first idle session is claimed |
| CmdTask.Pool.Quarantine | components/http_srv/http_cmd.c:94-99 | a session given up stays busy and is counted |
| CmdTask.InvStep | components/cmd_task/cmd_task.c:30-99 | every step of callers, queue and worker keeps the ownership invariant |
| CmdTask.RunInv | components/cmd_task/cmd_task.c:30-99 | the invariant holds in every state of every interleaving |
| CmdTask.SendNeverFails | components/cmd_task/cmd_task.c:69-72 | the queue never holds more slots than the pool has, so a send never finds it full |
| CmdTask.ClaimAndFree | components/cmd_task/cmd_task.c:38-99 | a slot is claimed only when free and when no worker can still write through it, and freed exactly once per claim |
| CmdTask.MinusTwoMeansRunning | components/cmd_task/cmd_task.c:73-86 | -2 is returned exactly when the worker had not marked done, and then it can still write |
| CmdTask.AnswerIsOwn | components/cmd_task/cmd_task.c:91-98 | an answer handed to a caller is the one to its own line |
| CmdTask.AnswerIsDispatched | components/cmd_task/cmd_task.c:30-98 | and carries the code the dispatcher gave for that line earlier in the run |
| CmdTask.BusyIff | components/cmd_task/cmd_task.c:55-72 | a call is refused as busy exactly when it found all four slots taken; it is never for the queue |
| CmdTask.CallAdvances | components/cmd_task/cmd_task.c:55-98 | every step of a caller takes its call further, eight at the most, and keeps its line and buffer; nobody else moves it |
| CmdTask.NeverStuck | components/cmd_task/cmd_task.c:30-98 | a call in progress always has a step to take, or the worker is about to wake it |
| CmdTask.NoSharedBuffer | components/http_srv/http_cmd.c:101-131 | no request sends, and no new request is given, a buffer an orphan may still write; two live requests never share one |
| CmdTask.QuarantineCounts | components/http_srv/http_cmd.c:94-99 | the counter is the number of sessions withdrawn |
| Ztab.Table.FindByMac | components/node_store/ztab.c:5-13 | the first row with that MAC, -1 if there is none |
| Ztab.Table.FindById | components/node_store/ztab.c:15-23 | the row with that id, -1 for a free or absent id |
| Ztab.Table.PlaceAt | components/node_store/ztab.c:27-37 | a new row in the first free place |
| Ztab.Table.AssignId | components/node_store/ztab.c:39-55 | the MAC's own id, or the lowest free one |
| Ztab.Table.ClearRow | components/node_store/ztab.c:71-79 | the row is zeroed |
| Ztab.Table.NameRow | components/node_store/ztab.c:57-69 | the row is named, flags and binding kept |
| Ztab.Table.EnrolMac | components/node_store/ztab.c:81-129 | the decision table of enrolment |
| Ztab.FreeIdFreeRow | components/node_store/ztab.c:27-55 | by pigeonhole a free id leaves a free row |
| Ztab.EnrolPlaces | components/node_store/ztab.c:81-129 | an unknown MAC gets the wanted or lowest free id in the first free row, or CONFLICT or FULL with nothing changed |
| Ztab.EnrolKeeps | components/node_store/ztab.c:81-129 | enrolment keeps the table a partial bijection and never renumbers a known MAC; only ASSIGNED changes the table |
| Ztab.VerdictIff | components/node_store/ztab.c:81-129 | when each verdict is given, both directions |
| Ztab.AssignGives | components/node_store/ztab.c:39-55 | asking without a claim: a bound MAC keeps its id, any other gets the lowest id nobody has, and none is given exactly when all rows are taken |
| Ztab.NameIff | components/node_store/ztab.c:57-69 | a name is taken exactly for a bound id and up to fifteen characters, and changes nothing else |
| Ztab.ZeroMacKnown | components/node_store/ztab.c:5-13 | the all-zero MAC is found exactly when a row is free, and is never bound |
| Ztab.LowestIffFull | components/node_store/ztab.c:39-55 | there is no lowest free id exactly when every row is taken |
| Enrol.Enroller.TrackUnassigned | components/node_mgr/node_mgr_enrol.c:95-100 | a waiting board is listed once, while there is room |
| Enrol.Enroller.PurgeUnassigned | components/node_mgr/node_mgr_enrol.c:104-112 | the loop finds the board and the last entry takes its place, as a swap-remove |
| Enrol.Enroller.HandleHb | components/node_mgr/node_mgr_enrol.c:158-206 | a heartbeat's effect on table, rows and waiting list |
| Enrol.Enroller.Clear | components/node_mgr/node_mgr.c:276-290 | clearing an id zeroes its table row, and its node row only if the table could be saved; the code of a failed save is returned |
| Enrol.Enroller.Seed | components/node_mgr/node_mgr_enrol.c:216-270 | seeding moves a MAC to an id and starts both rows over |
| Enrol.SeedFindsRow | components/node_mgr/node_mgr_enrol.c:233-236 | after the release there is always a row, so the branch without one is unreachable |
| Enrol.SeedMoves | components/node_mgr/node_mgr_enrol.c:216-270 | refused exactly for a bad id, a group address or the zero MAC; otherwise the MAC has the id, its old holder none, and every other binding is kept |
| Enrol.HeartbeatDoes | components/node_mgr/node_mgr_enrol.c:158-206 | who waits for an id after a heartbeat, exactly: a board turned away for want of ids joins while there is room, one that gets an id leaves and has a fresh node row, nobody else moves |
| Enrol.ClearVerdict | components/node_mgr/node_mgr.c:276-290 | an id that nobody has is refused and nothing changes; otherwise the save's code is returned |
| Enrol.HeartbeatInv | components/node_mgr/node_mgr_enrol.c:158-206 | a heartbeat from any MAC under any id keeps table, the rows of bound ids and waiting list consistent, and vacant rows vacant |
| Enrol.ClearInv | components/node_mgr/node_mgr.c:276-290 | a clear unbinds exactly that id; the rows of free ids stay vacant if and only if it frees nothing or its save succeeds |
| Enrol.SeedInv | components/node_mgr/node_mgr_enrol.c:216-270 | seeding keeps them consistent |
| Enrol.AlwaysBijection | components/node_mgr/node_mgr_enrol.c:158-270 | from an empty table, after any mix of heartbeats, clears, seeds and renames, no two MACs share an id, ids are 1 to 8, and each bound MAC has its node row, saved or not |
| Enrol.FreeRowsVacant | components/node_mgr/node_mgr.c:276-290 | the node rows of free ids are vacant after any run in which no clear of a bound id failed to save |
| Enrol.FailedClearLeavesRow | components/node_mgr/node_mgr.c:276-290 | after one that did, the id is free and its node row still in use |
| Enrol.HeartbeatsKeepBindings | components/node_mgr/node_mgr_enrol.c:158-206 | a bound MAC keeps its id through any steps that do not clear or seed it or its id |
| CliLine.Editor.Push | components/cli_line/cli_line.c:26-38 | pushing into the ring |
| CliLine.Editor.Up | components/cli_line/cli_line.c:60-73 | one step back in the history and its echo |
| CliLine.Editor.Down | components/cli_line/cli_line.c:75-87 | one step forward and its echo, the partial line past the newest |
| CliLine.Editor.FeedByte | components/cli_line/cli_line.c:89-172 | one byte through the editor; with the console's buffer no echo is ever cut |
| CliLine.Editor.TakeLine | components/cli_line/cli_line.c:174-180 | the captured line is handed out and the buffer emptied |
| CliLine.FeedValid | components/cli_line/cli_line.c:89-172 | every byte keeps the buffer, ring and browse position in bounds |
| CliLine.EchoBound | components/cli/cli.c:29-33 | no byte echoes more than 4 + 191 bytes, and nothing with echo off |
| CliReading.SessionReads | components/cli_line/cli_line.c:89-180 | every session, in both modes and through any change between them: a line end hands out exactly the text that the bytes, read as keys and edits apart from the editor, spell; or refuses it exactly if it overflowed |
| CliReading.TypedIsHanded | components/cli_line/cli_line.c:157-166 | printable bytes typed onto an empty line and ended are handed out as typed, or refused if they are more than 191 |
| CliReading.RefusedIff | components/cli_line/cli_line.c:120-172 | a line end is refused exactly if a byte found the line full and no line end, Ctrl-C or rubout came since |
| CliReading.AbandonedIsRefused | components/cli_line/cli_line.c:96-101 | concrete loss: without echo, a one-byte line typed after an overlong one was dropped as stale is refused as too long |
| CliReading.RefusedAfterDiscard | components/cli_line/cli_line.c:96-101 | the general form: dropping a stale line does not take the overflow back |
| CliReading.CountersCount | components/cli_line/cli_line.c:96-104 | the noise and stale counters count, in 32 bits, the bytes that mean nothing and the lines dropped |
| CliReading.StaleMeans | components/cli_line/cli_line.c:96-101 | stale is more than 30000 ms without a byte, counter wraps included |
| CliHistory.PushIsCons | components/cli_line/cli_line.c:26-38 | a push puts the line in front of the history, drops the eleventh, and skips blanks and repeats |
| CliHistory.RingIsLastTen | components/cli_line/cli_line.c:26-53 | over every key sequence the ring reads back as the last ten captured lines, newest first |
| CliHistory.UpsShow | components/cli_line/cli_line.c:60-73 | n ups show the n-th newest line, stopping at the oldest |
| CliHistory.DownsRestore | components/cli_line/cli_line.c:75-87 | downs walk back and then restore the partial line |
| CliHistory.UpsThenDowns | components/cli_line/cli_line.c:60-87 | any run of ups and then enough downs restores the partial line exactly |
| CliScreen.KeyShows | components/cli_line/cli_line.c:89-172 | every byte that does not recall history keeps the terminal's line equal to the edit buffer |
| CliScreen.SessionInStep | components/cli/cli.c:139-166 | through a whole console session, replies included, terminal and buffer agree as long as no key recalls history |
| CliScreen.SessionIff | components/cli/cli.c:139-166 | the whole session, recalls included: terminal and buffer agree after each key exactly if every recall so far was the accident below |
| CliScreen.RecallShowsIff | components/cli_line/cli_line.c:55-58 | after a recall the terminal shows the line exactly when old and recalled line both begin with G and the old one is no longer |
| CliScreen.RecallKey | components/cli_line/cli_line.c:55-87 | the same for the key press itself |
| CliScreen.FirstRecall | components/cli/cli.c:139-166 | the first recalling key of any session breaks the agreement exactly outside that case |
| CliScreen.HelpRecalled | components/cli_line/cli_line.c:55-58 | concrete case: recalling HELP onto an empty line shows ELP |
| CliScreen.FullSequenceRedraws | components/cli_line/cli_line.c:55-58 | the full five-byte erase sequence would show every recalled line |
| CliScreen.ReplyBlanks | components/cli/cli.c:49-61 | a reply made of lines ends on a blank line |
| Text.ValueOfDecimal | components/hg_cfg/hg_cfg_fields.c:130-136 | printed numbers read back |
| Text.ParseOfSigned | components/hg_cfg/hg_cfg_fields.c:130-136 | printed signed numbers parse to themselves |
| Text.HhmmRoundTrip | components/hg_cfg/hg_cfg_fields.c:138-162 | every minute of the day printed as HH:MM parses back |
| Text.EnumRoundTrip | components/hg_cfg/hg_cfg_fields.c:164-190 | an enum's name parses back to its index when its names differ |
| Text.HhmmReads | components/hg_cfg/hg_cfg_fields.c:138-152 | a clock reading with the hour in one or two digits is taken exactly if it is one of a day |
| Text.MinutesRead | components/hg_cfg/hg_cfg_fields.c:138-142 | plain minutes are taken up to 1439 |
| Text.EnumReads | components/hg_cfg/hg_cfg_fields.c:164-180 | an enumeration is read by name in any letter case, else by number in range, else not at all |
| CfgFields.KeysDiffer | components/hg_cfg/hg_cfg_fields.c:10-72 | no two rows of a group have the same key in any case |
| CfgFields.Layout | components/hg_cfg/hg_cfg_fields.c:10-72 | rows are well formed, inside their struct, and do not overlap |
| CfgFields.SwitchWords | components/hg_cfg/hg_cfg_fields.c:220-225 | a switch is set by ON, ENABLE and 1 and cleared by OFF, DISABLE and 0, in any letter case; any other text is refused |
| CfgFields.NumberVerdict | components/hg_cfg/hg_cfg_fields.c:237-255 | a number is stored within its row's bounds, refused with -2 beyond them, and text with -1 |
| CfgFields.TextVerdict | components/hg_cfg/hg_cfg_fields.c:192-210 | a string is stored exactly if it has at most fifteen characters from ! to ~ |
| CfgFields.RefusalCodes | components/hg_cfg/hg_cfg_fields.c:204-258 | a refused write returns -1, and -2 exactly for a number out of bounds |
| CfgFields.NoPin | components/hg_cfg/hg_cfg_fields.c:237-238 | NONE in any letter case is stored as 255 |
| CfgFields.WriteAllowed | components/hg_cfg/hg_cfg_fields.c:204-258 | a text write that succeeds leaves an allowed value, and one that fails leaves the bytes alone |
| CfgJson.LeafRoundTrip | components/hg_json/hg_json_internal.h:73-90 | any allowed field value, exported and merged into any struct, arrives as it was |
| CfgJson.PinLeafIff | components/hg_json/hg_json_internal.h:73-90 | a pin survives export and merge exactly if it is connected: NONE is exported as 255, which merging refuses |
| CfgJson.NumberMerged | components/hg_json/hg_json_internal.h:83-86 | a number in a document sets a numeric field to its whole part towards zero if the bounds have it, and is refused with -2 otherwise |
| CfgJson.ApplyAllowed | components/hg_json/hg_json_internal.h:73-90 | a merged leaf leaves an allowed value and touches no byte outside its field |
| CfgMerge.MergeGroupFields | components/hg_json/hg_json_cfg.c:88-107 | the loop over an object's members stops at the first bad one |
| CfgMerge.MergeElementGroups | components/hg_json/hg_json_cfg.c:113-136 | the groups of one shelf or aux element |
| CfgMerge.MergeIndexedArray | components/hg_json/hg_json_cfg.c:113-136 | the elements of a shelf or aux array, those beyond the last index ignored |
| CfgMerge.MergeMembers | components/hg_json/hg_json_cfg.c:155-178 | the top-level loop over the scratch copy |
| CfgMerge.Store.MergeCfg | components/hg_json/hg_json_cfg.c:138-192 | the config is replaced by the scratch copy only when everything merged and validated |
| CfgMerge.ValidateSame | components/hg_cfg/hg_cfg_validate.c:94-117 | validation depends on the editable fields alone |
| CfgEdits.MergeIsEdits | components/hg_json/hg_json_cfg.c:87-178 | merging any document is applying its list of edits, one a recognised leaf, in document order up to the first refused one, whose path is the one reported |
| CfgEdits.MergeVerdict | components/hg_json/hg_json_cfg.c:138-192 | the return code, exactly: -1 for no JSON, -2 if an edit is refused, -3 if all are carried out but the result does not validate, else 0, and the config is then that result |
| CfgRoundTrip.AllOrNothing | components/hg_json/hg_json_cfg.c:138-192 | a failed merge leaves the config unchanged and a successful one always validates |
| CfgRoundTrip.ExportMerges | components/hg_json/hg_json_cfg.c:37-192 | the exported document of a config, merged into any config, succeeds with every editable field equal exactly when the exported config validates and holds allowed values |
| CfgRoundTrip.MergeOnlyFields | components/hg_json/hg_json_cfg.c:138-192 | no document changes a byte outside the editable fields: generation and source are left alone |
| CfgValidate.CheckGroupRows | components/hg_cfg/hg_cfg_validate.c:47-58 | passes exactly when every row is in its bounds, and otherwise names the first that is not |
| CfgValidate.HgCfgValidate | components/hg_cfg/hg_cfg_validate.c:94-117 | passes exactly the valid configs: named, in bounds, lights with a span, within what the hardware allows; any other is refused with the first thing wrong |
| CfgValidate.ValidIff | components/hg_cfg/hg_cfg_validate.c:94-117 | the specification of the validator agrees with that declarative reading, both directions |
| CfgValidate.RowFault | components/hg_cfg/hg_cfg_validate.c:47-58 | rows that do not all hold what they may are refused with the key of the first that does not |
| CfgValidate.ShelfRefused | components/hg_cfg/hg_cfg_validate.c:98-115 | what refuses a shelf, in order: an unreadable crop, the first bad row of SHELF, LIGHT, WATER, FAN and VIB, a light without a span, the hardware, the dose, the day of doses |
| CfgValidate.FaultIsFirst | components/hg_cfg/hg_cfg_validate.c:94-117 | a config is refused with the first thing wrong: the name, the first bad row of the zone, of the first bad aux output in use, or of the first bad shelf |
| CfgValidate.Mark | components/hg_cfg/hg_cfg_validate.c:60-65 | a place is refused exactly when taking it would put two wires on one place or one off the bus |
| CfgValidate.WiresAreKeyed | components/hg_cfg/hg_cfg_validate.c:74-83 | each wire put on a bus is the value of the row whose key its fault names |
| CfgValidate.CalibratedIff | components/hg_cfg/hg_cfg_validate.c:84-88 | told by the row keys: a probe passes exactly with MIN_OK below MAX_OK and each DRY above its WET, and the first that fails is named |
| CfgValidate.HgHwValidate | components/hg_cfg/hg_cfg_validate.c:67-92 | passes exactly the planes in bounds, rightly calibrated, with no channel, pin or soil input wired twice; the fault it returns is the first in the order of the code, a shelf fault on the first faulty shelf |
| CfgPath.FieldPathLocates | components/panel_svc/psvc_zcfg.c:75-81 | every path printed for an in-range index locates back to its group, index and row |
| CfgPath.JsonPathIsFieldPath | components/hg_json/hg_json_internal.h:19-29 | the merge's error paths are the same strings |
| CfgPath.FaultLocates | components/panel_ui/pcfg_gen.c:281-331 | every path the config validator fails with locates to the offending row, with its shelf, -1 for zone and aux rows |
| CfgPath.HardwareFaults | components/panel_ui/pcfg_gen.c:281-331 | the path of a hardware table row locates exactly for the shelf-scoped groups |
| CfgPath.HwZoneLost | components/panel_ui/pcfg_gen.c:281-331 | zone-wide hardware paths never locate, whatever their key: their group name is stripped as a root |
| CfgPath.HwFaultLocates | components/hg_cfg/hg_cfg_validate.c:67-92 | for every plane hg_hw_validate refuses, AUX_PIN included: the reported path locates if and only if the fault is on a shelf, and then to the row it names there |
| CfgLocate.StrtolIff | components/panel_ui/pcfg_gen.c:296-303 | the number of an index is read exactly from blanks, a sign or none and digits, with its value and what follows them |
| CfgLocate.LocateIff | components/panel_ui/pcfg_gen.c:281-331 | a path locates to a row exactly if it spells the row's group and key in any letter case behind an index its scope allows, or, behind a shelf index, the bare key of a SHELF row |
| CfgPath.ZoneFields | components/panel_svc/psvc_zcfg.c:83-112 | the loop applies edits in order up to the first refused one |
| CfgPath.FirstBadEdit | components/panel_svc/psvc_zcfg.c:83-112 | the reported path locates to the first refused edit, and every edit before it is in the config |
| CfgBatch.EditVerdict | components/panel_svc/psvc_zcfg.c:99-109 | an edit is taken exactly if its row is a config row, its index in range and its text stands for a value of the row |
| CfgBatch.EditReads | components/panel_svc/psvc_zcfg.c:104-109 | a taken edit gives its row the value of the text, and every other row of the config keeps its own |
| CfgBatch.BatchVerdict | components/panel_svc/psvc_zcfg.c:83-112 | a batch is taken exactly if each of its edits is, whatever the config held |
| CfgBatch.BatchStops | components/panel_svc/psvc_zcfg.c:83-112 | any other batch stops at its first edit that is not taken, with those before it carried out |
| CfgBatch.BatchReads | components/panel_svc/psvc_zcfg.c:83-112 | after a batch that was taken every row of the config holds what the last edit for it says, or what it held |

## Left out

- The ring protocol: packets, health and 16-bit sequence wrap; the tracker and the chunk assembler appear only as what they answer, and a pulled blob's bytes are what the assembler yields.
- The httpd is one task with one GET in progress, so its streaming count is 0 or 1; the 8-bit width of that count is not modelled.
- hg_image's identity check is a predicate on the first bytes of an install; its own parsing is not modelled.
- Progress percentages, watchdog feeding, yields between blocks, logging and notification text.
- Flash failures are taken to leave whole sectors erased or a prefix of bytes programmed; bits that decay or half-erased sectors are not modelled.
- FwInstall.InstallZone: the sink's outcomes are those of ZoneTrace; that the C sink produces them is FwSinkZone's part, and the two meet in the trace, not in one object.
- ZoneTrace.PowerCut: for partitions of whole sectors up to 0xFF000000 bytes, because in a larger one a length word with its top byte still erased would no longer point past the end; the ESP32 has no flash near that size.
- The second wait of cmd_task and of the forwarder is taken to see the notification the other side has committed to, as the code's comments do.
- Mutexes and critical sections are atomic steps; task priorities and lock time-outs are not modelled.
- The fleet tick samples the node outside the lock; the fleet properties are about the machine's inputs, whatever they were sampled from.
- CfgTransfers.PushGenAhead: stated below the 32-bit wrap; at the wrap the code's generation starts over.
- CfgTransfers.TransferEnds: counts accepted submits, answers and expiries; that the radio delivers them is not claimed.
- The reconciler's zones are one array of records here, where the C code keeps parallel arrays.
- Saving to and loading from NVS, boot-time initialisation, hg_store and the settling of dirty data.
- psvc_zcfg's read-edit-submit cycle around the edit functions.
- The hardware plane is validated by what its rows hold, not byte by byte, and hg_cfg_validate reads three limits of it; the read-only hardware subtree of the JSON export is any tree.
- JSON is a tree: parsing and printing its text and warnings about ignored members are not modelled; a number beyond int is taken to saturate.
- NUL terminators and buffer sizes of printed text beyond the truncations the code performs.
- The panel's value stepping, formatting and raw text, and its table for the master's own settings.
- The terminal has one line that never wraps and knows the sequences named in CliScreen; log lines and cli_vprintf, which redraws with the same four bytes, do not write between echoes.
- Heartbeat telemetry, hop counts and the clear requests an enrolment change queues for the reconciler, which appear there as clears at any time.
- ZoneModel.Model.Edit: of an edit that touches the hardware plane only whether anything changed and whether it was valid is modelled; the hardware contents, their validation and the mask bits are not.
- The zone's hardware apply, its dirty mask handling and trial boots.
- The HTTP server's routing, login, body framing and status texts; the web page; wifi, time and crypto services.
