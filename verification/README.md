# ExpressLRS link layer: a verified model

ExpressLRS is a radio control link: a transmitter and a receiver share a hopping sequence and a slot
counter, exchange channels one way and telemetry the other, and repair themselves with sync packets.
This project models the parts of it with the most interacting state and proves what they promise.

| module | models |
|---|---|
| `TxSlots`, `RxSlots` | the two radios as classes whose interrupt handlers and loop polls update fields in place, each specified by a step function |
| `SlotRuns`, `Agreement`, `Collisions`, `Witnesses` | runs of both radios: independent timers, a sync in flight, commits, silent slots, polls, losses; what keeps, breaks and repairs hop agreement and the half-duplex rule, with runs from power-up that break them |
| `AirLaws`, `Handshake`, `SyncSchedule`, `LinkLoss`, `Bursts`, `SwitchModes`, `RateScan` | what each slot puts on the air, what a sync carries across, sync liveness, connection supervision, telemetry bursts, confirmed mode changes, scanning for a rate |
| `Rates`, `Hopping`, `Fhss`, `Chaos` | telemetry divisors and the rate tables, the hop table and its in-place shuffle, the link quality that proves a receiver is hopping |
| `Gemini` | splitting a downlink payload over two radios and rejoining it |
| `Mavlink` | splicing local MAVLink frames into the vehicle's byte stream |
| `ChannelPacking`, `Crsf`, `ShiftRegister` | 11-bit channel packing against the CRSF layout; CRSF framing, CRC and reader of the Python tools |
| `DynPower`, `PowerLaws`, `Statistics`, `Filters` | dynamic power control, its sample window with integer square root, and its filters |
| `Bits`, `Quotients`, `Words` | bitwise operators on naturals, quotients and remainders, fixed-width words |

Methods are written as the firmware writes them and proved equal to step functions; the theorems are
about those functions and about runs of them. Machine widths are explicit: 8-bit nonce and hop index,
32-bit clocks and accumulators, signed bytes that wrap, quotients that truncate.

## What does not hold as one might expect

Each has its lemma; where the property can hold, the lemma says exactly when.

- The commit tick advances the hop index with a bare increment. Its index can leave the table; it still
  names the right entry modulo the table's length, unless the byte wraps inside the table
  (`Agreement.TickBreaksAgreement`, reached in `Witnesses.LongCommitLosesAgreement`). A sync sent with such
  an index throws an agreeing receiver back to tentative (`Agreement.SyncLeavesAgreeingLinkAlone`, reached
  in `Witnesses.CommitDemotesReceiver`).
- A slot kept silent because channels are stale never completes. It breaks hop agreement if and only if it
  is the last slot of a dwell (`Witnesses.SilentSlotLosesAgreement`), and lets the transmitter send in the
  telemetry slot after it (`Witnesses.SilentSlotCollides`). The next delivered sync repairs the agreement
  after any run (`Agreement.DeliveredSyncRepairs`).
- A lost sync that changes the divisor can leave the receiver replying in slots the transmitter does not
  listen in, until the next sync (`Witnesses.LostSyncCollides`). In which slots both ends send is exact
  (`Collisions.SlotCollidesExactly`); over runs it takes a lost sync or a slot that never completed
  (`Collisions.CollisionNeedsSkippedSlot`).
- In dual band the hop table is cut to the shorter band's length while `minLqForChaos` goes by the channel
  count, and a receiver sitting still can exceed the threshold (`Chaos.DualBandExceedsThreshold`); when it
  can is exact (`Chaos.SittingStillStaysBelowThreshold`).
- After a sync in an odd dwell a Gemini receiver swaps its payloads before its first hop trades the
  frequencies. Halves heard until then are crossed, and spoil the spans they end up in, even one completed
  after the hop (`Gemini.CrossedBeforeHop`, `Gemini.CrossedAcrossHop`, exact in `Gemini.SpansAreTheSenders`).
- Telemetry received when the millisecond clock reads zero counts as never received
  (`LinkLoss.PollWithinGap`, `LinkLoss.ZeroStampDisconnects`).
- The Gemini merge compares package indices, not lengths: a half kept from a link statistics frame and one
  from a data frame join to a wrong span in some orders (`Gemini.MixedLengths`).
- Channel packing gives back its inputs only if they fit 11 bits; nothing limits what the head tracker
  sends (`ChannelPacking.ReadBackExactly`).
- `send` in `crsf.py` writes bodies of up to 254 bytes, the reader takes 61 (`Crsf.ReadBackExactly`).
- A third sync with the same new switch mode, arriving before the main loop applies the change, takes it back
  to unconfirmed, and a fourth confirms it again (`SwitchModes.RepeatsToggle`).
- The SNR loop of dynamic power estimates in a signed byte and overshoots for thresholds of 30 dB and more
  (`DynPower.LoopAddsNeededExactly`). No rate in the tables has one, but the sample window can: a mean of 127
  quarter decibels gives an upper threshold of 123.
- The 12-channel switch mode does not fit the one bit a sync has for it and arrives as the 8-channel mode
  (`Handshake.SettingsArrive`).
- The telemetry ratio STD would give divisor 0; the callers resolve it first (`Rates.DivisorIsValid`).

## Model

| member | source | states |
|---|---|---|
| `Agreement.Lockstep` | src/src/tx_main.cpp:689-755 | Over every interleaving of ordinary, telemetry and commit slots, delivered and lost syncs and loop polls, across nonce wrap: in a shared slot the nonces are equal and the hop indices name the same table entry, and are equal outright while the transmitter's lies in the table |
| `Agreement.LockstepFromPowerUp` | src/src/rx_main.cpp:805-848 | The same, both clauses, for every run that starts with both radios just powered up |
| `Agreement.LockstepSinceSync` | src/src/rx_main.cpp:1133-1147 | After any run from power-up, hops lost or not, the ends are in lockstep again from the last delivered sync on, while no hop is lost after it |
| `Agreement.DeliveredSyncRepairs` | src/src/rx_main.cpp:1118-1147 | Self-stabilisation over runs: whatever a run from power-up has lost or broken, a sync delivered at its end leaves the two ends aligned |
| `Agreement.DeliveredSyncRepairsSlip` | src/src/rx_main.cpp:1133-1147 | The same for a receiver whose timer had slipped to any nonce or that had hopped to any index |
| `Agreement.RunKeepsGrounded` | src/src/tx_main.cpp:438-439 | Every run, calm or not, keeps a sync in flight current and the divisors valid: what the repair starts from |
| `Agreement.RunKeepsAligned` | src/src/tx_main.cpp:893-949 | The invariant behind lockstep survives every event of every run in which no hop is lost |
| `Agreement.StepKeepsAligned` | src/src/rx_main.cpp:833-836 | The same for one event of any kind |
| `Agreement.TickAdvances` | src/src/tx_main.cpp:701-755 | Every tick moves one slot on, and the index will settle one hop on exactly if the new slot ends a dwell |
| `Agreement.EvenSlotIsNotLast` | src/src/tx_main.cpp:902-909 | A telemetry slot has an even nonce, a dwell an even length: skipping its transmit-done never skips a hop |
| `Agreement.TickBreaksAgreement` | src/src/tx_main.cpp:553-572 | A tick breaks the agreement if and only if it starts a silent stale-channels slot at the end of a dwell, or a commit hop runs off the byte of the index inside the table |
| `Agreement.CommitLeavesTable` | src/src/tx_main.cpp:689-696 | A concrete commit tick whose bare increment leaves the table while a hop would wrap |
| `Agreement.CommitFreeRunStaysInTable` | src/src/tx_main.cpp:908-932 | In runs without commits the transmitter's index never leaves the table, so lockstep is equality of indices |
| `Agreement.SyncAligns` | src/src/rx_main.cpp:1118-1147 | The step behind it: from any receiver nonce, index, divisor and link state, an accepted sync of the slot the transmitter is in restores the agreement and the divisor |
| `Agreement.SyncLeavesAgreeingLinkAlone` | src/src/rx_main.cpp:1133-1147 | In an agreeing connected link with unchanged model match, a sync changes neither nonce, index nor connection if and only if its index lies in the table |
| `Agreement.TickFliesCurrent` | src/src/tx_main.cpp:438-439 | A sync packet carries the nonce and index of the very slot it is sent in, and a divisor that is the transmitter's own or 1 |
| `Agreement.TockKeepsAligned` | src/src/rx_main.cpp:833-836 | A receiver tock, hopping at the start of a dwell, keeps agreeing with a transmitter that hops at its end |
| `SlotRuns.DwellFollowsWrap` | src/src/rx_main.cpp:417-419 | First and last slot of a dwell are recognised the same before and after the 8-bit nonce wraps |
| `SlotRuns.AheadRespectsWrap` | src/src/rx_main.cpp:424-443 | Where a receiver will be after any number of tocks depends only on the wrapped nonce and the table entry it holds |
| `SlotRuns.SendFrame` | src/src/tx_main.cpp:553-646 | Whatever a slot sends, it leaves nonce, index and phase alone; only a sync changes the divisor, and the packet says to what |
| `SlotRuns.StaleChannelsStayOff` | src/src/tx_main.cpp:558-572 | Stale channels are never sent: without MAVLink the slot is silent, with it the slot carries a sync, Airport data or uplink data |
| `AirLaws.TickSendsExactly` | src/src/tx_main.cpp:553-646 | From the state before it alone, whether a tick transmits and which of sync, Airport data, uplink data and channels: second and third slot for announced changes, the clock and the rotating slot on the sync channel for the rest, payload alternating |
| `AirLaws.SyncLeaves` | src/src/tx_main.cpp:583-603 | A sync leaves its time and moves the rotation by one slot, or restarts it if it was an extra one |
| `AirLaws.PayloadLeaves` | src/src/tx_main.cpp:604-646 | Uplink data and channels alternate; data asks for a boost and announces a new one with one extra sync |
| `AirLaws.CommitForgetsTelemetrySlot` | src/src/tx_main.cpp:866-885 | A commit drops a telemetry slot that was due: the first tick after it transmits |
| `AirLaws.AwaitingModelStandsStill` | src/src/tx_main.cpp:701-712 | While a model id is awaited the nonce stands still and nothing is sent, until a timeout |
| `AirLaws.TockRepliesExactly` | src/src/rx_main.cpp:503-515 | A tock replies if and only if the receiver is linked, the slot is one of its telemetry slots, it has not replied since its last half period, and nothing mutes it |
| `AirLaws.AnswersOncePerPeriod` | src/src/rx_main.cpp:505-515 | Once it has answered it stays quiet until the half period's tick |
| `AirLaws.LosingStartsOver` | src/src/rx_main.cpp:850-881 | Losing the link goes back to the first switch mode and a burst computed afresh, while slot, index and ratio stand |
| `AirLaws.NewRatioNewBurst` | src/src/rx_main.cpp:1118-1126 | After a sync the main loop's burst is that of the ratio it announced, computed once |
| `AirLaws.StaysConnectedExactly` | src/src/rx_main.cpp:1128-1147 | An accepted sync leaves a connected receiver connected if and only if nonce, index and model match are what it held; otherwise it goes back to tentative, and takes all three from the packet either way |
| `AirLaws.ModeIsAppliedOnce` | src/src/rx_main.cpp:2025-2035 | A confirmed mode is applied once: nothing stays pending, and a link lost later is not taken back to it |
| `Handshake.AcceptedExactly` | src/src/rx_main.cpp:1066-1085 | A sync is accepted exactly by receivers of the same binding, up to the six bits left to the model, that support its rate |
| `Handshake.ModelMatchesExactly` | src/src/tx_main.cpp:448-452 | A fully bound receiver finds its model matched if and only if the ids agree in six bits, or, with matching off at the transmitter, its own id has all six set |
| `Handshake.SettingsArrive` | src/src/tx_main.cpp:438-442 | Slot, telemetry ratio and announced rate arrive at a lost receiver as the transmitter means them, and the switch mode if and only if it fits its single bit |
| `Handshake.BoostLastsOneCycle` | src/src/tx_main.cpp:380-390 | After uplink data the next sync asks for 1:2, and the boost ends with the first sync cycle that brought no more |
| `Handshake.ChangeIsAnnounced` | src/src/tx_main.cpp:419-432 | A change is announced by exactly three syncs with the requested rate, the current rate from then on; the extra ones last for ten syncs with the current rate while no receiver answers, and end with the first one otherwise |
| `Handshake.RequestedRatioArrives` | src/src/tx_main.cpp:386-414 | Without a boost the receiver is told what was asked for: the rate's own ratio by default, none when armed at disarmed telemetry |
| `Collisions.CollisionFree` | src/src/tx_main.cpp:734-754 | With every slot completing before the next tick, no slot of any run in which the ends act on compatible divisors, equal ones for instance, is used in both directions |
| `Collisions.CollisionFreeFromPowerUp` | src/src/rx_main.cpp:503-515 | The same for every run from power-up |
| `Collisions.BenignRunsNeverCollide` | src/src/rx_main.cpp:1118-1126 | In runs from power-up whose slots complete, no slot is used in both directions at all unless a sync is lost that leaves the divisors incompatible |
| `Collisions.SlotCollidesExactly` | src/src/tx_main.cpp:734-754 | The half-duplex rule slot by slot, both directions: a slot both ends enter together is used in both if and only if it is the receiver's telemetry slot with nothing to keep it quiet, and the transmitter neither commits, nor is silent, nor completed the slot before and takes this one for telemetry |
| `Collisions.SlotCollidesAfterRun` | src/src/rx_main.cpp:503-515 | The same of the next slot after any run from power-up |
| `Collisions.CollisionNeedsSkippedSlot` | src/src/tx_main.cpp:902-946 | Over runs, lost syncs included: both ends are on the air together only if the transmitter's previous slot never completed or the two acted on incompatible divisors |
| `Collisions.CompatibleExactly` | src/src/tx_main.cpp:905-905 | Every slot the receiver may reply in is one the transmitter listens in if and only if the receiver's divisor is 1 or the transmitter's divides it and is not 1 |
| `Collisions.SlotDirection` | src/src/tx_main.cpp:734-754 | After a completed slot, the transmitter is silent exactly in the slots whose nonce its divisor divides |
| `Collisions.TockSlots` | src/src/rx_main.cpp:505-510 | The receiver goes on the air only in slots whose nonce its divisor divides |
| `Collisions.SkippedDoneTransmits` | src/src/tx_main.cpp:893-898 | After a slot that never completed, the transmitter sends even in a telemetry slot |
| `Collisions.RunKeepsInStep` | src/src/rx_main.cpp:503-515 | The invariant on slots and nonces behind it survives every run |
| `Collisions.RunKeepsOrderly` | src/src/rx_main.cpp:1118-1126 | The divisors stay compatible in every run that loses no sync which would leave them otherwise |
| `Collisions.ArmedSyncKeepsListening` | src/src/tx_main.cpp:391-414 | A connected transmitter set to disarmed telemetry that generates a sync while armed, no boost asked for, announces 1 but goes on listening in every slot in which a receiver of any divisor it was compatible with may reply, and those only |
| `Collisions.ArmedSyncStopsListening` | src/src/tx_main.cpp:391-414 | Once disconnected, the same sync stops the listening |
| `Collisions.LostArmedSyncIsBenign` | src/src/tx_main.cpp:391-414 | So in a run such a sync may always be lost: dropping it never leaves the divisors incompatible |
| `Witnesses.SilentSlotLosesAgreement` | src/src/tx_main.cpp:553-572 | Runs from power-up, under any clock by which the first sync is due, to the last slot of any dwell of a connected link, where one stale-channels slot loses the agreement |
| `Witnesses.LongCommitLosesAgreement` | src/src/tx_main.cpp:689-696 | For every table length that does not divide 256, a run from power-up under any such clock whose commit hops off the byte and loses the agreement |
| `Witnesses.CommitDemotesReceiver` | src/src/rx_main.cpp:1133-1147 | For every table shorter than 256, a run from power-up under any such clock in which a commit passes the table's end and the next requested sync demotes a connected, agreeing receiver |
| `Witnesses.SilentSlotCollides` | src/src/tx_main.cpp:734-754 | A run from power-up under any such clock, with equal divisors, in which a stale-channels slot makes both ends send in the telemetry slot after it |
| `Witnesses.LostSyncCollides` | src/src/tx_main.cpp:386-414 | A run from power-up under any such clock, every slot completing, in which the sync that ends a telemetry boost is lost and both ends send in one slot |
| `SyncSchedule.SyncGoesOut` | src/src/tx_main.cpp:583-603 | On a sync-channel dwell, entered after a completed slot or a skipped one and with any telemetry, polls and requests between its slots, a sync not suppressed goes out no later than slot syncSlot/2, or the one after if the transmitter listens in that one, provided one is due by then |
| `SyncSchedule.SyncDueAtStartGoesOut` | src/src/tx_main.cpp:598-603 | So one that is due when its dwell starts goes out in that dwell, unless a poll changes the interval meanwhile |
| `SyncSchedule.SyncGoesOutExactly` | src/src/tx_main.cpp:598-603 | Without spam none goes out before that slot, and one goes out in it if and only if it is due then |
| `SyncSchedule.EachThresholdTwice` | src/src/tx_main.cpp:596-602 | Among 2h successive regular syncs every threshold is used exactly twice |
| `SyncSchedule.RotationStaysInRange` | src/src/tx_main.cpp:590-602 | No tick takes the sync slot out of 0 to 2h - 1 |
| `LinkLoss.PollWithinGap` | src/src/tx_main.cpp:951-983 | With telemetry no more than 5 telemetry slots old, a poll keeps the connection if and only if the reception was not stamped zero |
| `LinkLoss.SteadyTelemetryStaysConnected` | src/src/tx_main.cpp:951-983 | No run of receptions, polls and syncs within that gap disconnects, despite truncated and wrapping milliseconds and whatever the syncs do to the divisor |
| `LinkLoss.SyncRestartsWait` | src/src/tx_main.cpp:407-414 | A sync restarts the wait for telemetry just when it makes telemetry more frequent |
| `LinkLoss.ZeroStampDisconnects` | src/src/tx_main.cpp:960-962 | A reception at clock reading zero is taken for no reception: the next poll disconnects a healthy link |
| `LinkLoss.FirstPollPastTimeoutDisconnects` | src/src/tx_main.cpp:956-979 | Once telemetry stops, polls up to max(512, five telemetry intervals) + 2 ms after the last stamp change nothing and the first one past it disconnects |
| `LinkLoss.TimeoutIsAllowedSilence` | src/src/tx_main.cpp:953-958 | The division the source times out by is that bound for every divisor and rate |
| `TxSlots.TxRadio.TimerCallback` | src/src/tx_main.cpp:701-755 | Takes the step of `Tick`: the state and what goes on air, for which lockstep, collisions and sync schedule are proved |
| `TxSlots.TxRadio.NonceAdvance` | src/src/tx_main.cpp:689-696 | Only the counters move during a commit; see `Agreement.CommitAdvances` |
| `Agreement.CommitAdvances` | src/src/tx_main.cpp:689-696 | A commit tick keeps the hop count congruent unless the byte wraps inside the table |
| `TxSlots.TxRadio.TXdoneISR` | src/src/tx_main.cpp:893-949 | Takes the step of `TxDone`: hop at the end of a dwell, listen before a telemetry slot, once per transmission |
| `TxSlots.TxRadio.SendRCdataToRF` | src/src/tx_main.cpp:553-646 | Takes the step of `SendRc`: stale channels silence the slot, spam before regular sync before payload |
| `TxSlots.TxRadio.GenerateSyncPacketData` | src/src/tx_main.cpp:419-453 | Takes the step of `GenerateSync`: the packet and the counters it leaves |
| `TxSlots.TxRadio.UpdateTlmRatioEffective` | src/src/tx_main.cpp:373-417 | Takes the step of `UpdateRatio` and returns the ratio for the packet |
| `TxSlots.TxRadio.PackPayload` | src/src/tx_main.cpp:604-646 | Takes the step of `SendPayload`: uplink data, alternating with channels, requests a telemetry boost |
| `TxSlots.TxRadio.UpdateConnectDisconnectStatus` | src/src/tx_main.cpp:951-983 | Takes the step of `PollConnection`, on which the link-loss theorems rest |
| `RxSlots.RxRadio.HWtimerCallbackTock` | src/src/rx_main.cpp:805-848 | Takes the step of `Tock`: nonce, hop, then at most one reply |
| `RxSlots.RxRadio.HandleFHSS` | src/src/rx_main.cpp:415-454 | Hops exactly at the start of a dwell on a live link |
| `RxSlots.RxRadio.HandleSendDataDl` | src/src/rx_main.cpp:503-614 | Takes the step of `Answer`: one reply per telemetry slot, link statistics or payload by the burst counter |
| `RxSlots.RxRadio.HWtimerCallbackTick` | src/src/rx_main.cpp:700-718 | Re-arms the reply and nothing else |
| `RxSlots.RxRadio.ProcessRfPacketSync` | src/src/rx_main.cpp:1064-1148 | Takes the step of `ReceiveSync`; asks for the timer to be restarted exactly when it realigned |
| `RxSlots.RxRadio.TentativeConnection` | src/src/rx_main.cpp:1133-1147 | Jumps to the packet's slot and falls back to tentative |
| `RxSlots.RxRadio.UpdateSwitchModePendingFromOta` | src/src/rx_main.cpp:1032-1062 | A second sync with the same new mode, or any on a lost link, makes the change due |
| `RxSlots.RxRadio.UpdateSwitchMode` | src/src/rx_main.cpp:2025-2035 | Applies a due change and only that |
| `RxSlots.RxRadio.UpdateTelemetryBurst` | src/src/rx_main.cpp:1712-1723 | Recomputes the burst once per change of divisor |
| `RxSlots.RxRadio.LostConnection` | src/src/rx_main.cpp:850-881 | Drops to lost with the reply re-armed, mode and burst reset |
| `Rates.DivisorIsValid` | src/src/common.cpp:257-266 | The divisor is 1 or a power of two up to 128 if and only if the caller has resolved STD; 1 exactly for the two ratios without telemetry |
| `Rates.TablesAreValid` | src/src/common.cpp:9-135 | Every row of the four rate tables has hop interval 2 or 4, an interval of 1 to 40 ms, a telemetry ratio of 1:128 to 1:2 and 1, 2 or 4 sends |
| `Rates.TelemetryNonceIsEven` | src/src/tx_main.cpp:905-905 | Every telemetry slot has an even nonce |
| `Rates.WrapKeepsResidue` | src/src/rx_main.cpp:505-507 | The 8-bit wrap of the nonce disturbs no divisor |
| `Rates.BurstPeriodWithinInterval` | src/src/common.cpp:274-292 | (burst + 1) telemetry periods fit in 512000 us whatever the floor divisions dropped, and the result fits its byte |
| `Rates.BurstIsMaximal` | src/src/common.cpp:274-292 | One more telemetry slot between link statistics would pass the 512 ms, and where not even two fit, payload gets one |
| `Rates.DivisorsHalve` | src/src/common.cpp:257-266 | From 1:128 to 1:2 each ratio in turn asks for telemetry twice as often |
| `Bursts.LinkStatsSpacing` | src/src/rx_main.cpp:529-557 | With data always queued, exactly every (burstMax + 1)-th frame carries link statistics |
| `Bursts.LinkStatsNotStarved` | src/src/rx_main.cpp:529-557 | However the queue runs dry, link statistics come within burstMax further frames |
| `Bursts.LinkStatsPeriod` | src/src/rx_main.cpp:1712-1723 | With the burst the main loop computes, link statistics are at most 512 ms apart |
| `SwitchModes.AppliedModeWasConfirmed` | src/src/rx_main.cpp:2025-2035 | In every run, a mode applied after a sync on a live link was carried by the two most recent accepted syncs |
| `SwitchModes.ContrarySyncPrevents` | src/src/rx_main.cpp:1032-1062 | On a live link, a sync with another mode before application leaves nothing to apply |
| `SwitchModes.TwoSyncsConfirm` | src/src/rx_main.cpp:1045-1061 | From rest on a live link, the second of two syncs takes effect if and only if the first asked for the same mode |
| `SwitchModes.RepeatsToggle` | src/src/rx_main.cpp:1049-1061 | Further syncs with the confirmed mode, arriving before it is applied, leave it confirmed if and only if their number is even |
| `RateScan.EveryRateIsTuned` | src/src/rx_main.cpp:1728-1756 | From any counter value every supported rate is tuned within 2 * RATE_MAX cycles, across the wrap of the byte |
| `RateScan.Scanner.SkipUnsupported` | src/src/rx_main.cpp:1746-1751 | If any rate is supported the skip loop ends, on a supported rate |
| `RateScan.Scanner.CycleRfMode` | src/src/rx_main.cpp:1728-1756 | Cycles exactly when idle, unlocked and due, and tunes only supported rates thereafter |
| `RateScan.ReachUp` | src/src/rx_main.cpp:1746-1751 | Below the wrap no supported rate is passed over |
| `Fhss.BuildSequence` | src/lib/FHSS/FHSS.cpp:141-184 | What is built in place, whatever was there, is a function of seed, channel count and sync channel: two ends with the same binding hold the same table |
| `Fhss.TableIsWellBuilt` | src/lib/FHSS/FHSS.cpp:128-140 | For every seed, that table is whole blocks, more than half of 256 entries, that start on the sync channel, visit it nowhere else and repeat no channel |
| `Fhss.StartCountsUp` | src/lib/FHSS/FHSS.cpp:145-157 | Before the shuffle every entry is its place in its block, but for the head and the sync channel's place, which trade |
| `Fhss.ShuffledIsWellBuilt` | src/lib/FHSS/FHSS.cpp:159-172 | Shuffling any number of entries, each inside its block, keeps that |
| `Fhss.BlockVisitsEveryChannel` | src/lib/FHSS/FHSS.cpp:128-140 | Every block visits every channel exactly once |
| `Fhss.Random.Rng` | src/lib/FHSS/random.cpp:8-15 | The generator stays below 2^15, as its callers rely on |
| `Fhss.Random.RngN` | src/lib/FHSS/random.cpp:23-26 | The draw is below the bound and determined by the seed |
| `Fhss.SeedStepsBack` | src/lib/FHSS/random.cpp:8-15 | The generator is a bijection of the 31-bit seeds: each step is undone by the inverse multiplier |
| `Fhss.EveryNumberIsDrawn` | src/lib/FHSS/random.cpp:23-26 | Every number below a bound is drawn from some seed |
| `Fhss.ShuffleCanBeUndone` | src/lib/FHSS/FHSS.cpp:159-175 | Table and generator together tell what they came from: the trades in reverse, with the seeds stepped back, restore the start from every shuffled table |
| `Fhss.TopBitMakesNoDifference` | src/lib/FHSS/random.cpp:8-20 | Only the low 31 bits of a seed matter to the table |
| `Chaos.SittingStillStaysBelowThreshold` | src/src/rx_main.cpp:270-284 | Of every 100 consecutive slots at most `minLqForChaos()` are on the sync channel, so that a higher link quality proves the receiver is hopping, if and only if the table in use is whole blocks of channels or the one cut short still leaves the blocks a window reaches over 100 slots long |
| `Chaos.DualBandExceedsThreshold` | src/lib/FHSS/FHSS.h:106-125 | Dual band over EU868: 240 of 247 entries are used, and a window of 100 slots holds 12 sync slots against a threshold of 8 |
| `Fhss.PrefixIsWellBuilt` | src/lib/FHSS/FHSS.h:106-125 | The part of a longer table that dual band uses is well built, except that its last block may be cut |
| `Chaos.WindowBound` | src/src/rx_main.cpp:272-279 | A window of at most n periods sees at most n dwells' worth of visits, wherever it starts |
| `Chaos.SyncChannelSlots` | src/lib/FHSS/FHSS.h:146-173 | In every round through the table the sync channel is held for the first dwell of every block, and no other |
| `Chaos.ThresholdFitsByte` | src/src/rx_main.cpp:280-283 | The threshold never truncates in its byte |
| `Gemini.SpansAreTheSenders` | src/src/tx_main.cpp:214-260 | From an empty buffer, over any run of tocks, syncs, lost links, repeated and one-sided receptions and sender advances: every span handed over is of the package being sent, and is the sender's span if and only if both halves were heard straight, or are equal; they may come from different frames |
| `Gemini.StraightRunsDeliver` | src/src/rx_main.cpp:594-604 | In every run whose syncs land straight, every span handed over is the sender's |
| `Gemini.StepKeepsStraight` | src/src/rx_main.cpp:1133-1147 | An event leaves a straight receiver and its stored halves straight if and only if it is not a sync to a dwell that the radios are not tuned for |
| `Gemini.SyncAfterLoss` | src/src/rx_main.cpp:395-398 | For a receiver whose link was lost a sync lands straight if and only if it names an even dwell, or on dual band |
| `Gemini.CrossedBeforeHop` | src/src/rx_main.cpp:594-604 | A sync in an odd dwell, then a reply in the next slot, before the first hop: the span is handed over with its halves exchanged |
| `Gemini.CrossedAcrossHop` | src/src/tx_main.cpp:223-253 | A half of such a reply completed after the hop hands over one half twice |
| `Gemini.HalvesArriveStraight` | src/src/rx_main.cpp:594-604 | Transmitter radio 1 hears the first half and radio 2 the second if and only if the receiver's frequencies match the parity of the dwell |
| `Gemini.StraightAfterHop` | src/src/rx_main.cpp:424-438 | From the first hop after a sync on they do, whatever they were before |
| `Gemini.FrameIsSound` | src/src/tx_main.cpp:223-253 | One frame keeps the merge buffer sound and hands over only what its two halves make of the current span |
| `Gemini.LargestHalvesJoin` | src/src/tx_main.cpp:217-253 | Halves of up to ten bytes, whichever radio brings the first, join to their span, after which nothing is stored |
| `Gemini.NoIndexNeverCompletes` | src/src/tx_main.cpp:247-253 | The index that stands for nothing stored never completes a span |
| `Gemini.MixedLengths` | src/src/rx_main.cpp:481-501 | Since only indices are compared: a half stored with one payload length and completed with another gives the right span, for all contents, exactly if the first half covers or the second has the same length |
| `Gemini.Merger.ProcessOtaDataDl` | src/src/tx_main.cpp:214-260 | Takes the step of `Process` in its static buffer |
| `Mavlink.RunSplicesSafely` | src/src/tx_mavlink.cpp:419-510 | Over any run and for any deterministic parser: the output without the insertions is the vehicle's stream; inserted and pending frames are the accepted ones in order; every insertion sits where the parser, folded over the vehicle bytes so far, is idle or was reset after a stall of over 500 ms; the queue fits its buffer; between frames nothing waits |
| `Mavlink.TxMavlink.ForwardToGcs` | src/src/tx_mavlink.cpp:470-495 | Writing whole runs of bytes puts out the same as passing on, and flushing after, each byte alone |
| `Mavlink.TxMavlink.QueueFrame` | src/src/tx_mavlink.cpp:419-426 | A frame is accepted if and only if it fits the 560 bytes behind those queued; accepted it is the last pending one, refused it changes nothing; the buffer holds the pending frames back to back |
| `Mavlink.TxMavlink.FlushQueuedFrames` | src/src/tx_mavlink.cpp:428-436 | Sends all pending frames whole, in order, only between vehicle frames |
| `Mavlink.TxMavlink.Update` | src/src/tx_mavlink.cpp:497-510 | Gives up a frame only after more than 500 ms, takes new frames, then flushes |
| `Mavlink.PassAllIsGood` | src/src/tx_mavlink.cpp:470-495 | Forwarding any chunk, wherever it cuts frames, keeps conservation and splice safety |
| `Mavlink.UpdateIsGood` | src/src/tx_mavlink.cpp:497-510 | So does a main-loop pass, with any frames offered |
| `Mavlink.RunTakesInFitting` | src/src/tx_mavlink.cpp:419-426 | Over every run, the frames sent and pending are, in order, exactly those of the frames offered that fitted, pass by pass, the 560 bytes behind what was then pending |
| `Mavlink.OfferedFramesKept` | src/src/tx_mavlink.cpp:419-426 | Of any frames offered in one pass exactly the fitting ones are kept, in order |
| `Mavlink.IdlePassSends` | src/src/tx_mavlink.cpp:428-436 | Between vehicle frames one pass sends the ground station, at once and in order, all that was pending and all that fits of what is offered |
| `Mavlink.FramesThatFitAreSent` | src/src/tx_mavlink.cpp:419-436 | Frames that fit the empty queue together all go out in the pass that offers them |
| `Mavlink.BusyPassHolds` | src/src/tx_mavlink.cpp:428-436 | Inside a vehicle frame that has not stalled a pass sends nothing |
| `Mavlink.GivenUpExactly` | src/src/tx_mavlink.cpp:494-505 | A pass gives an incomplete vehicle frame up if and only if more than 500 ms have passed since its last chunk |
| `Mavlink.StallReleasesQueue` | src/src/tx_mavlink.cpp:497-510 | A pass after such a stall sends what was waiting behind it |
| `ChannelPacking.PublishChannels` | src/lib/Backpack/devBackpack.cpp:266-286 | For all 16-bit values the 22 bytes, read little-endian, are the values laid over one another at 11-bit steps, cut to 176 bits; the 32-bit accumulator loses nothing on the way |
| `ChannelPacking.ReadBackExactly` | src/include/crsf_protocol.h:180-201 | The sixteen 11-bit fields give back every value if and only if each fits in 11 bits |
| `ChannelPacking.PublishedFields` | src/lib/Backpack/devBackpack.cpp:277-286 | For all 16-bit inputs: each field of the packet holds its channel's low eleven bits under those the channel before has above its own, and a channel not to be updated counts as nought in both |
| `ChannelPacking.FittingFields` | src/lib/Backpack/devBackpack.cpp:277-286 | Where every channel fits or is not to be updated, the fields are the channels, and nought for those |
| `ChannelPacking.OverlaidFits` | src/lib/Backpack/devBackpack.cpp:272-286 | Values that fit do not overlap: the packed number is the sum of v_i * 2^(11 i), below 2^176 |
| `ChannelPacking.FieldOfOverlaid` | src/include/crsf_protocol.h:183-201 | Each field of the layout reads its own channel |
| `ChannelPacking.MergeAdds` | src/lib/Backpack/devBackpack.cpp:280-282 | Or-ing a shifted value in is exact in 32 bits, for values of any width |
| `Crsf.MaskingOnceSuffices` | src/python/crsf.py:10-19 | For every list of numbers and polynomial, the checksum computed without a width and masked at the end is that of an 8-bit register |
| `Crsf.CalcCrc8` | src/python/bootloader.py:8-17 | The nested loop computes the 8-bit register's checksum |
| `Crsf.CrcIsRemainder` | src/python/crsf.py:10-19 | For every body and polynomial, the checksum is what remains of body * 2^8 after a carry-less multiple of 2^8 + polynomial |
| `Crsf.RemainderIsUnique` | src/python/crsf.py:10-19 | No other byte is |
| `ShiftRegister.RegisterHoldsCrc` | src/python/crsf.py:10-19 | A shift register with feedback x^7 + x^6 + x^4 + x^2 + 1, described bit by bit, holds that checksum after every body |
| `ShiftRegister.CheckValue` | src/python/crsf.py:9-19 | The check value published for CRC-8/DVB-S2: 0xBC for the characters 1 to 9 |
| `Crsf.OneChangedByteShows` | src/python/crsf.py:10-19 | Two bodies of one length that differ in a single byte never have the same checksum |
| `Crsf.ReaderSplits` | src/python/crsf.py:101-126 | On every sequence of bytes that arrive, the byte-by-byte reader delivers what cutting it by its length bytes gives |
| `Crsf.RoundTrip` | src/python/crsf.py:101-131 | On any frames back to back with bodies of up to 61 bytes the reader delivers exactly those bodies |
| `Crsf.ReadBackExactly` | src/python/crsf.py:118-131 | A frame that `send` writes is read back if and only if its body has at most 61 bytes |
| `Crsf.OneBadByteIsRefused` | src/python/crsf.py:109-116 | A frame with one body byte changed is flushed, and what arrives after the flush is read as before |
| `Crsf.DeliveredWasFramed` | src/python/crsf.py:101-126 | Whatever the input, a delivered body stood in it as a whole frame with matching length and checksum |
| `Crsf.Reader.OnByte` | src/python/crsf.py:105-126 | One turn of the loop on a byte that arrives takes the step of `Feed`; the bytes that a flush drops from the port never arrive |
| `Crsf.Send` | src/python/crsf.py:129-131 | Writes the frame, or fails exactly when the length does not fit its byte |
| `Crsf.GetTelemetrySeq` | src/python/bootloader.py:19-28 | The edited list and its checksum, nothing for nothing, or failure exactly when a number fits no byte |
| `Crsf.TelemetrySeqIsFrame` | src/python/bootloader.py:19-28 | The result is a frame of start and key if and only if the start's length byte counted its own tail and the checksum, and the whole fits |
| `Crsf.ShortStart` | src/python/bootloader.py:19-28 | A start of one byte is closed by the checksum of an empty body |
| `DynPower.UpdateKeepsCap` | src/src/dynpower.cpp:69-257 | On every path an update ends within the hardware's range and at or below the larger of the configured and the previous power |
| `DynPower.RunKeepsCap` | src/src/dynpower.cpp:64-257 | So no run of updates and telemetry interrupts that starts at or below the configured power exceeds it |
| `DynPower.SnrKeepsHeadroom` | src/src/dynpower.cpp:226-249 | Power and remaining headroom together stay within the configured power through the decrement and the SNR loop |
| `DynPower.LoopAddsNeededExactly` | src/src/dynpower.cpp:241-248 | The SNR loop adds just the levels the sample lacks, up to the headroom, for all samples if and only if the threshold is below 120: above, the int8 estimate wraps |
| `DynPower.LowSampleRaisesByNeed` | src/src/dynpower.cpp:226-249 | With a bad signal the power rises by just that many levels, up to the hardware's maximum |
| `DynPower.FifthReadingDecides` | src/src/dynpower.cpp:166-189 | Where RSSI steers: five weak readings add one level, five strong ones with good link quality take one |
| `DynPower.MissesEscalate` | src/src/dynpower.cpp:119-137 | While telemetry stays away past the link statistics interval, n missed slots add n levels, up to the configured and the maximal power |
| `PowerLaws.EmergencyGivesConfigured` | src/src/dynpower.cpp:109-114 | Boost switch, disconnected while armed, or new telemetry whose quality is at most 50 or at least 20 below the average: the power afterwards is the configured one, as far as the hardware goes |
| `PowerLaws.JumpsExactly` | src/src/dynpower.cpp:144-189 | Where RSSI steers and the configured power is two or more levels up, one update reaches it if and only if it is one of those, and no other gains two levels |
| `PowerLaws.WorseQualityNeverLowers` | src/src/dynpower.cpp:144-256 | There, worse link quality never ends at less power, unless the power is above the configured one |
| `PowerLaws.FixedPowerExactly` | src/src/dynpower.cpp:84-100 | With dynamic power off: one level off an overload, back to the configured power from -20 dBm down, and no move otherwise |
| `PowerLaws.MissedRaisesExactly` | src/src/dynpower.cpp:121-137 | A missed report adds a level if and only if an armed link has waited more than two ms past max(512, two link statistics) and headroom is left |
| `PowerLaws.NoReportNoMove` | src/src/dynpower.cpp:139-141 | Without a report the power stays |
| `PowerLaws.QuietReadingsExactly` | src/src/dynpower.cpp:166-173 | Until the fifth RSSI reading a level is added if and only if quality is at most 85 and headroom is left |
| `PowerLaws.FifthReadingExactly` | src/src/dynpower.cpp:173-188 | The fifth moves by the mean of the five: up below 15 over the sensitivity, down above 21 over it with quality at 95 |
| `PowerLaws.SnrSteeredExactly` | src/src/dynpower.cpp:190-256 | Where SNR steers, the power after any calm report in closed form: a level down at the upper limit, the levels lacking under the lower one, or one for low quality if nothing moved |
| `PowerLaws.ReportIsTaken` | src/src/dynpower.cpp:71-82 | Every update takes the report; samples of another rate are forgotten, calm ones of quality 99 or more are added |
| `PowerLaws.ReportsAreAveraged` | src/src/dynpower.cpp:142-155 | Clock and average follow a new report, and only where it is acted on |
| `PowerLaws.ScaleFallsEvenly` | src/src/dynpower.cpp:208-214 | The deviation's weight falls evenly from 13 at a quality of 100 to 1 at 85 |
| `PowerLaws.ThresholdsNearMean` | src/src/dynpower.cpp:216-221 | The thresholds are the mean plus half a deviation and minus the weighted one, each within the loss of its truncations, a decibel apart |
| `PowerLaws.WindowThresholds` | src/src/dynpower.cpp:202-221 | The same from a full window's own mean and deviation, with every truncation on the way |
| `PowerLaws.OwnThresholdsUntilFull` | src/src/dynpower.cpp:192-202 | Until the window holds 48 samples the rate's own thresholds count |
| `DynPower.GoodSignalLowersByOne` | src/src/dynpower.cpp:226-239 | Where the signal is good no sample adds a level, and one at the upper limit takes one |
| `DynPower.PoorAverageLowersNever` | src/src/dynpower.cpp:229-236 | An average quality under 95 takes no level |
| `DynPower.ThresholdsApartExactly` | src/src/dynpower.cpp:216-221 | The thresholds are a decibel apart if and only if half a deviation above the mean does not lie less than a decibel above where an int8 wraps |
| `DynPower.SteadyLinkStepsDown` | src/src/dynpower.cpp:192-236 | A link with a flat SNR window and high quality steps down exactly one level |
| `DynPower.AverageNeverWraps` | src/src/dynpower.cpp:31-43 | The link quality average follows the recurrence without overflow, whatever byte arrives |
| `DynPower.DynamicPower.Update` | src/src/dynpower.cpp:69-257 | Takes the step of `UpdateController`, on which the theorems above rest |
| `DynPower.DynamicPower.Init` | src/src/dynpower.cpp:57-62 | Full link quality, no report and the first rate, whatever was there |
| `DynPower.DynamicPower.Note` | src/src/dynpower.cpp:69-92 | Takes the report once, starts a new window at a new rate, backs off one level from overload |
| `DynPower.DynamicPower.RaiseUntilAbove` | src/src/dynpower.cpp:241-248 | The loop raises by `LevelsUp` levels and leaves the rest of the headroom |
| `DynPower.DynamicPower.AdjustByRssi` | src/src/dynpower.cpp:166-189 | Averages every fifth reading and moves at most one level |
| `DynPower.DynamicPower.AdjustBySnr` | src/src/dynpower.cpp:190-249 | Updates the window, then lowers and raises by the thresholds |
| `DynPower.DynamicPower.ReadThresholds` | src/src/dynpower.cpp:192-224 | Fallback thresholds until the window is full, then mean and deviation scaled by link quality |
| `DynPower.DynamicPower.Inc` | src/lib/POWERMGNT/POWERMGNT.cpp:92-99 | One level up, saturating |
| `DynPower.DynamicPower.Dec` | src/lib/POWERMGNT/POWERMGNT.cpp:101-108 | One level down, saturating |
| `DynPower.DynamicPower.SetPowerTo` | src/lib/POWERMGNT/POWERMGNT.cpp:176-181 | The level, constrained to the hardware's range |
| `Statistics.FastSqrtUint` | src/lib/MeanAccumulator/StdevAccumulator.h:8-34 | The floor of the square root, for every 32-bit number, without overflow on the way |
| `Statistics.StdevAccumulator.Add` | src/lib/MeanAccumulator/StdevAccumulator.h:55-77 | The ring and its running sums stay those of exactly the last 48 samples |
| `Statistics.StdevAccumulator.MeanRaw` | src/lib/MeanAccumulator/StdevAccumulator.h:86-102 | The mean of those samples, cached or not |
| `Statistics.StdevAccumulator.StandardDeviationRaw` | src/lib/MeanAccumulator/StdevAccumulator.h:111-149 | Their standard deviation in 256ths, cached or not |
| `Statistics.NothingOverflows` | src/lib/MeanAccumulator/StdevAccumulator.h:122-143 | No intermediate result for any window exceeds 32 bits |
| `Statistics.MeanInHull` | src/lib/MeanAccumulator/StdevAccumulator.h:97-99 | The mean lies between the least and the greatest sample |
| `Statistics.SteadySignal` | src/lib/MeanAccumulator/StdevAccumulator.h:111-149 | Equal samples have that mean and no deviation |
| `Statistics.VarianceIsNear` | src/lib/MeanAccumulator/StdevAccumulator.h:123-142 | For every window the computed variance is that of its samples, as the squared differences of all pairs give it, but for less than 258 n / (n - 1) in 256ths |
| `Statistics.DeviationIsRoot` | src/lib/MeanAccumulator/StdevAccumulator.h:144-148 | The deviation is the floor root of that variance, in sixteenths |
| `Statistics.MeanIsNear` | src/lib/MeanAccumulator/StdevAccumulator.h:123-126 | The mean is off by less than one 256th, towards zero |
| `Statistics.WindowIsLastSamples` | src/lib/MeanAccumulator/StdevAccumulator.h:55-77 | After any samples the window holds the last 48 |
| `Filters.AddStepExactly` | src/src/dynpower.cpp:35-36 | `MovingAvg.add` is s + floor((X - s) / K) if and only if its sum stays below 2^32 |
| `Filters.UpdateStepExactly` | src/include/LowPassFilter.h:40-45 | `LPF.update` is the same recurrence if and only if its sum stays within 32 signed bits |
| `Filters.AddAllRefines` | src/src/dynpower.cpp:31-43 | Over whole runs of bounded readings the unsigned filter equals the recurrence and stays in range |
| `Filters.UpdateAllRefines` | src/include/LowPassFilter.h:32-50 | The same for the signed filter |
| `Filters.StaysInHull` | src/include/LowPassFilter.h:40-45 | The recurrence never leaves the hull of its start and inputs |
| `Filters.Settles` | src/include/LowPassFilter.h:40-45 | On a steady input it reaches the input exactly from above and within K - 1 from below, in at most as many steps as the distance |
| `Filters.OutputSettles` | src/include/LowPassFilter.h:40-49 | The integer output settles at x or x - 1, and at x from above |
| `Filters.ShrinksFromAbove` | src/src/dynpower.cpp:36-36 | The distance after n steps is at most ((K - 1) / K)^n of the first |
| `Filters.ShrinksFromBelow` | src/src/dynpower.cpp:36-36 | From below the same holds beyond K - 1 |
| `Filters.MovingAvg.Add` | src/src/dynpower.cpp:36-36 | Takes the step of `AddStep`, wrap included |
| `Filters.MovingAvg.GetValue` | src/src/dynpower.cpp:37-37 | The average rounded down to whole units |
| `Filters.LPF.Update` | src/include/LowPassFilter.h:32-50 | First call after a reset takes the input; later ones take `UpdateStep` and return it rounded down |

## Left out

- Binding mode, model-id delay and team race selection: the receiver's team match is an input of the tock.
- Listen-before-talk: a suppressed transmission still completes, as its deferred callback arranges; antenna
  choice and redundant sends (`numOfSends`) do not touch the slot state.
- Changes of air rate during a run: a configuration stays put from the first event of a run to the last. A
  commit is therefore one that keeps the rate.
- The STM32 build, which commits without the flag and so skips no slot.
- Radio drivers, frequency registers, the hardware timer and its phase lock: the hop index stands for the
  tuned frequency, and the two timers are free to interleave within one slot of each other. A slip by whole
  slots is no event of the runs; `Agreement.DeliveredSyncRepairsSlip` covers what it leaves behind.
- When a receiver calls its link connected, and what counts as a received packet: the link quality behind it
  is only in `Chaos`. The runs of `Witnesses` connect it after a hundred slots, or leave it tentative.
- Over-the-air packing and its CRC: a sync arrives with the fields it was sent with, or not at all.
- A sync names its rate by an enumeration that both ends map to their tables; the model carries the table index.
- Dual band in `Chaos`: the sync slots of the primary band's table; the second radio's own packets are not counted.
- The stubborn sender and receiver: taken as a payload that stays fixed under its package index until handed
  over, and another index for the next one. The Gemini run theorem takes equal payload lengths from this;
  `Gemini.MixedLengths` says what happens without.
- The MAVLink library's parser and the parameter server: any deterministic fold from bytes to state, and any
  frames offered in a main-loop pass. That a handled vehicle message queues nothing is read off the server.
- `RateScan.EveryRateIsTuned`: counts cycles from any counter value; the first cycle after binding, which
  starts from a value that was not skipped to, may tune an unsupported rate.
- `Mavlink.TxMavlink.constructor`: starts with the parser idle, which the library's zeroed status is.
- `Crsf.Reader.OnByte`: a flush drops bytes already buffered by the port; the model reads only bytes that
  arrive. What `process` does with a body, an empty one in particular, is not part of this model.
- The power scaling by listen-before-talk success and the power caps of the EU 2.4 GHz build; the hardware's
  greatest power is an input.
- `DynPower.DynamicPower.AdjustByRssi`: the mean accumulator is folded into the controller as its sum and count.
- Airport serial data, serial protocol choice, devices, EEPROM, WiFi, display and everything under the web
  interface: plumbing around these parts.
- Median filters, button handling and fixed-range channel conversions: small or finite, they would add easy members.
