# Bus bridges, crossbar and test models, verified

This project models the memory path of a 68040 system-on-chip and the test models around
it, and proves what they promise.

* **DDR bridge** (`Mig*.dfy`): bursts of 16-byte beats become bursts of 32-byte beats
  towards a memory controller.  The write engine is modelled twice: as its registers (a
  four-slot descriptor ring, a two-entry skid, registered shadows) in `MigWriteRing`, and
  as an unrolled queue with history in `MigWriteQueue`.  `MigWriteRefinement` proves that
  the registers simulate the queue, `MigWriteInvariant` what every part of a cycle keeps,
  `MigWriteTheorems` and `MigWriteBus` what follows for whole runs in front of the memory
  model (`MigModel`).  The read engine is in `MigRead` and `MigReadTheorems`, its eight
  descriptor slots as registers in `MigReadRing`, and a run of writes followed by a run of
  reads in `MigReadBack`.  `MigContract` states what a master may rely on, from the fields of
  a request and byte addresses alone.
* **Asynchronous bridge** (`Async*.dfy`, `Pairing.dfy`): reset recovery by a response sink
  and a data padder, in front of a memory that pairs addresses and data by length alone;
  `AsyncAlignment` says what a cut burst does to that memory.
* **Crossbar** (`Xbar*.dfy`): the harness's slaves, the read slots and quarantine of the
  port whose backend survives a flush, and the deferred disarm of the boot overlay.
* **Event log** (`LogText.dfy`, `EventLog*.dfy`): the logger, the text it writes, the
  checker that reads it back and its verdicts, the reader of its detail lines, and the names
  and texts that mislead the checker.
* **Decoders** (`XaDecoder.dfy`, `AdbFrame.dfy`, `ViaShift.dfy`, `Bits.dfy`).

## Defects found

* **The address pointer of the DDR bridge can lap its ring.**  A refused write is skipped
  without being marked as issued (rtl/board/axi_ddr4_mig_bridge.v:383-385 and 711-728).
  With four writes outstanding, all passed by the pointer, and the oldest refused and not
  yet answered, the pointer comes round and skips it a second time.  From then on it is
  one slot ahead of the queue: a younger write's address is issued before an older legal
  one's.  `MigWriteLap.FaithfulIffNeverLaps` proves that the registers follow the queue
  throughout a run if and only if this never happens, `LapNeedsRefusal` that it takes four
  outstanding writes of which the oldest is refused or malformed (so legal traffic, and
  any traffic of a master that keeps to three writes, is safe), `LaterAddressIssuedFirst`
  gives a run of eleven cycles that does it, and `LapWedges` that three cycles later no
  continuation ever stores another byte.  All other theorems about the write path are
  proved for the runs that do not lap, that is for exactly those that follow the queue.
* **The port-3 quarantine can hold a slot that owes nothing, and can forget one that does.**
  When the flush lands in the very cycle in which a draining slot consumes its burst's last
  beat, the slot is quarantined although nothing is left to arrive
  (rtl/soc/axi_xbar.v:4558-4617).  The port then admits nothing until the clean-up timer
  expires, answers every read with errors until the next flush, and only then admits reads
  again (`RaceIsReachable`, `HollowUntilTimer`, `ClosedUntilFlush`, `RaceRecovers`).  The
  second failing input is the timer itself (rtl/soc/axi_xbar.v:4334-4350): it lifts a
  quarantine with the burst still owed, the next flush reopens the port
  (rtl/soc/axi_xbar.v:4406-4410), and a new read of that slot is handed the old read's beats
  (`LateBurstMeetsNewRead`).  `StepIff` proves that a cycle keeps the whole invariant if and
  only if it is neither the race nor a time-out, `AlwaysServedIff` that the masters are
  served throughout a run if and only if no address of it meets a stale burst of its own
  slot, and `ClashNeedsTimeOut` that this takes a time-out with a burst owed; races alone
  never corrupt a read.

Where code and comment disagree the code is followed: the ADB decoder reads a cell past the
end of its scan as low although its comment says high (tb/tb_adb_phy.cpp:207-211), which is
why a late frame is rejected rather than mis-read.

The event log's checker reads back the tally of every run whose names are free of white
space and whose texts are free of line breaks, except for names its patterns cannot take
(`CategoriesReadBack`, `EventsReadBack`: both are if-and-only-if).  Without either condition
it reads categories that were never counted (`BreakForges`, `SpaceForges`).

## Model

| member | source | states |
|---|---|---|
| MigModel.Controller.ReadBeat | tb/tb_axi_ddr4_mig_bridge.cpp:1014-1022 | the 32 bytes at the address, missing ones zero |
| MigModel.Controller.StoreBeat | tb/tb_axi_ddr4_mig_bridge.cpp:1024-1030 | exactly the strobed lanes are written |
| MigModel.Controller.DriveOutputs | tb/tb_axi_ddr4_mig_bridge.cpp:1035-1051 | what the controller drives in each state |
| MigModel.Controller.ObserveWrite | tb/tb_axi_ddr4_mig_bridge.cpp:1056-1079 | the whole new write state, address before data before response |
| MigModel.Controller.ObserveRead | tb/tb_axi_ddr4_mig_bridge.cpp:1081-1099 | the whole new read state |
| MigModel.Controller.ObserveAndAdvance | tb/tb_axi_ddr4_mig_bridge.cpp:1055-1100 | one cycle, the write direction first |
| MigModelTheorems.ModelRefinesAtomicMemory | tb/tb_axi_ddr4_mig_bridge.cpp:1010-1100 | for every run: memory is the beats stored at addr + 32i by pairing alone, no address survives a step, completed bursts = responses taken + owed + lost |
| MigModelTheorems.PromptLosesNothing | tb/tb_axi_ddr4_mig_bridge.cpp:1036-1079 | taking every response at once loses none |
| MigModelTheorems.LostIff | tb/tb_axi_ddr4_mig_bridge.cpp:1067-1079 | a response is lost exactly when a burst completes with one pending |
| MigModelTheorems.LostResponse | tb/tb_axi_ddr4_mig_bridge.cpp:1036-1079 | a four-cycle run that loses one |
| MigWriteInvariant.HeadIsExpected | rtl/board/axi_ddr4_mig_bridge.v:1148-1164 | the skid's head is the beat, address and last flag the controller expects |
| MigWriteInvariant.PackedStores | rtl/board/axi_ddr4_mig_bridge.v:454-481 | storing a packed 32-byte beat is storing the 16-byte beats in it |
| MigWriteInvariant.StepKeeps | rtl/board/axi_ddr4_mig_bridge.v:264-789 | every cycle keeps the invariant of pointers, flags, packing, framing |
| MigWriteInvariant.StepContents | rtl/board/axi_ddr4_mig_bridge.v:454-606 | every cycle keeps the log of 32-byte beats equal in effect to the bursts received |
| MigWriteRefinement.NextRep | rtl/board/axi_ddr4_mig_bridge.v:680-945 | one clock edge of ring, skid and shadow registers simulates the unrolled queue |
| MigWriteRefinement.DecisionsAgree | rtl/board/axi_ddr4_mig_bridge.v:369-620 | all handshake and push decisions of the registers are the queue's |
| MigWriteRefinement.NextCoherentLive | rtl/board/axi_ddr4_mig_bridge.v:902-940 | the registered shadow equals a live read of the slot it shadows |
| MigWriteTheorems.RunTracks | rtl/board/axi_ddr4_mig_bridge.v:264-1197 | a run that never laps is tracked state by state |
| MigWriteTheorems.WritesPreserveMeaning | tb/tb_axi_ddr4_mig_bridge.cpp:528-699 | under any stalls, strobes, lengths and malformed bursts, memory is the accepted bursts stored in order, up to at most two beats still in the skid |
| MigWriteTheorems.HistoryStreams | rtl/board/axi_ddr4_mig_bridge.v:456-474 | every burst ends at its length or first WLAST; its response is OKAY iff it is legal and well formed |
| MigWriteBus.TakenIsRecorded | rtl/board/axi_ddr4_mig_bridge.v:288-289 | the bursts are exactly the addresses and beats taken from the bus, in order |
| MigWriteBus.WellFormedStored | tb/tb_axi_ddr4_mig_bridge.cpp:2977-3000 | a legal well-formed burst is stored whole, beat i at start + 16i |
| MigWriteBus.RefusedStoresNothing | rtl/board/axi_ddr4_mig_bridge.v:275-289 | a refused burst stores nothing |
| MigWriteBus.MalformedStored | tb/tb_axi_ddr4_mig_bridge.cpp:1828-1957 | of a malformed burst exactly the complete 32-byte beats before the fault are stored |
| MigWriteBus.ResponseMeansStored | rtl/board/axi_ddr4_mig_bridge.v:1192-1197 | a response carries the oldest write's id, is OKAY iff legal and well formed, and comes after all its beats reached memory |
| MigWriteBus.BurstsStayFramed | tb/tb_axi_ddr4_mig_bridge.cpp:1959-2101 | every beat the memory takes is the next of the burst it expects, with WLAST exactly on its last |
| MigWriteBus.AddressHeld | rtl/board/axi_ddr4_mig_bridge.v:305-381 | once raised, the address channel holds valid, address and length until taken |
| MigWriteBus.DataHeld | rtl/board/axi_ddr4_mig_bridge.v:1148-1164 | once raised, the data channel holds valid and payload until taken |
| MigWriteLap.LapIff | rtl/board/axi_ddr4_mig_bridge.v:383-385 | a cycle leaves the queue's order if and only if the pointer laps |
| MigWriteLap.LapNeedsRefusal | rtl/board/axi_ddr4_mig_bridge.v:383-385 | a lap needs four outstanding writes, the oldest refused or malformed |
| MigWriteLap.FaithfulIffNeverLaps | rtl/board/axi_ddr4_mig_bridge.v:711-728 | a whole run follows the queue iff it never laps |
| MigWriteLap.LegalTrafficNeverLaps | rtl/board/axi_ddr4_mig_bridge.v:275-289 | legal addresses and well-formed bursts never lap, whatever the interleaving |
| MigWriteLap.ThreeOutstandingNeverLap | rtl/board/axi_ddr4_mig_bridge.v:264-273 | nor does any traffic with at most three writes outstanding |
| MigWriteLap.LegalTrafficIsStored | tb/tb_axi_ddr4_mig_bridge.cpp:2977-3000 | for legal traffic memory ends as every burst stored whole, beat i at start + 16i, in order of acceptance |
| MigWriteLap.LaterAddressIssuedFirst | rtl/board/axi_ddr4_mig_bridge.v:711-728 | an eleven-cycle run issues a younger address before an older legal one |
| MigWriteLap.WedgeHolds | rtl/board/axi_ddr4_mig_bridge.v:1161-1164 | the state it leads to is kept by every cycle |
| MigWriteLap.LapWedges | rtl/board/axi_ddr4_mig_bridge.v:1161-1197 | after it no byte changes, no data is offered and the older write is never answered |
| MigReadTheorems.BypassRefinesFifo | rtl/board/axi_ddr4_mig_bridge.v:1498-1560 | serving a beat in the cycle it arrives equals passing it through skid and holding register |
| MigReadTheorems.OutputIsAnswer | rtl/board/axi_ddr4_mig_bridge.v:1473-1532 | the half shown is the 16 bytes the read calls for |
| MigReadTheorems.ReadsReturnMemory | tb/tb_axi_ddr4_mig_bridge.cpp:1413-1489 | every run returns exactly the answers to the accepted reads in order, len+1 beats each, id, data, response and RLAST right |
| MigReadRing.NextRep | rtl/board/axi_ddr4_mig_bridge.v:1276-1292 | one clock edge of the eight read slots and their wrapping pointers simulates the queue of reads |
| MigReadRing.RingIsQueue | rtl/board/axi_ddr4_mig_bridge.v:1562-1638 | over every run the read registers accept and hand over exactly what the queue does; no traffic makes them part |
| MigReadBack.ReadsSeeLatestWrites | tb/tb_axi_ddr4_mig_bridge.cpp:2411-2503 | after any run of writes that never laps, every byte of every legal read of any run of reads is the one last written there with its strobe set, or the initial one |
| MigReadBack.WriteThenRead | tb/tb_axi_ddr4_mig_bridge.cpp:2411-2503 | the burst written last in a run is returned by every later read of it |
| MigContract.WritesOnAre | rtl/board/axi_ddr4_mig_bridge.v:456-474 | a run's writes are the addresses and beats on its bus, cut into bursts at their length or first WLAST |
| MigContract.EveryByteStored | rtl/board/axi_ddr4_mig_bridge.v:275-289 | after every run that never laps each byte of memory is lane b of beat i of the latest write that put it at addr/16*16 + 16i + b, else the initial one; served are one-beat INCR writes of size 0, 1 or 2 below 2^31 and aligned size-4 INCR bursts that end below it, and all others store nothing |
| MigContract.EveryResponseTrue | rtl/board/axi_ddr4_mig_bridge.v:1192-1197 | response j carries write j's id and is OKAY iff that write is served and came with all its beats and WLAST on the last only |
| MigContract.EveryReadTrue | rtl/board/axi_ddr4_mig_bridge.v:1294-1308 | every beat any run of reads hands over after any run of writes: in its place, with its id and RLAST; of a served read OKAY and each byte the one last stored there, of any other an error of zeros |
| MigContract.ServedTrafficIsSafe | rtl/board/axi_ddr4_mig_bridge.v:383-385 | served, well-framed traffic never laps |
| Pairing.TargetInBurst | tb/tb_axi_async_bridge.cpp:250-268 | burst j owns the beats that start at the sum of earlier lengths |
| Pairing.TargetOfSuffix | tb/tb_axi_async_bridge.cpp:250-268 | after complete bursts, later ones are placed as if those had never been |
| Pairing.CutShifts | tb/tb_axi_async_bridge.cpp:1122-1146 | a burst left d beats short: beat i of every later burst goes d places early, to its own burst's address of beat i - d (never its own) or, if i < d, into an earlier burst |
| Pairing.FillersRealign | tb/tb_axi_async_bridge.cpp:1122-1256 | filler stays inside the abandoned burst and every beat of every later burst gets its own address |
| AsyncSlave.Slave.Responses | tb/tb_axi_async_bridge.cpp:204-223 | responses taken clear the response, advance or retire the read |
| AsyncSlave.Slave.Commit | tb/tb_axi_async_bridge.cpp:250-268 | at most one burst is committed, all its words at consecutive addresses, strobes ignored |
| AsyncSlave.Slave.LatchEdge | tb/tb_axi_async_bridge.cpp:199-268 | one clock edge of the model |
| AsyncSlave.CommitPaired | tb/tb_axi_async_bridge.cpp:253-262 | committing burst j stores words Owed(j) .. Owed(j+1) |
| AsyncSlave.EveryRunPairs | tb/tb_axi_async_bridge.cpp:199-268 | in every run memory is the committed bursts by pairing, queues are the rest, commits = responses delivered + owed |
| AsyncSlaveReads.EveryRunAnswers | tb/tb_axi_async_bridge.cpp:199-268 | in every run response j carries write j's id, and every read receives its len+1 beats in order with its id, consecutive addresses and RLAST on the last |
| AsyncAlignment.CutRunMisplaces | tb/tb_axi_async_bridge.cpp:1122-1146 | in every run with a cut burst, the slave's memory holds every later beat d words too low or inside an earlier burst, and at its own address the beat sent d later |
| AsyncAlignment.PaddedRunPlaces | tb/tb_axi_async_bridge.cpp:1213-1256 | in every run with the burst topped up, it holds every later beat at its own address |
| AsyncStaleSink.StepTracks | rtl/soc/axi_bridge_stale_sink.v:144-204 | the counters track the ledger of epochs |
| AsyncStaleSink.SinkIsExact | rtl/soc/axi_bridge_stale_sink.v:119-207 | over every run a response is discarded iff its request precedes the latest reset, and debt never exceeds outstanding |
| AsyncStaleSink.ExactIffFits | rtl/soc/axi_bridge_stale_sink.v:120-122 | four bits are exact iff at most fifteen requests were unanswered |
| AsyncStaleSink.AccumulationSafeIff | rtl/soc/axi_bridge_stale_sink.v:176-201 | over every run the accumulating form is exact, at each point and whatever follows, iff no reset lands on undrained debt |
| AsyncStaleSink.AccumulationEatsFresh | tb/tb_axi_async_bridge.cpp:1018-1120 | one request and two resets make the accumulating form discard a fresh response |
| AsyncWritePad.NextRep | rtl/soc/axi_bridge_w_pad.v:148-255 | head register, ring of lengths and pad counter are the list of beats the memory expects |
| AsyncWritePad.TailNext | rtl/soc/axi_bridge_w_pad.v:178-251 | the ring shifts and grows as a queue |
| AsyncRecovery.SoundStep | rtl/soc/axi_bridge_w_pad.v:171-255 | every event keeps the pairing of beats with bursts of their own epoch |
| AsyncRecovery.RecoveryIsSound | tb/tb_axi_async_bridge.cpp:1122-1256 | over any number of resets no real beat is paired with an abandoned burst and no filler with a live one |
| AsyncRecovery.AbandonedAreComplete | tb/tb_axi_async_bridge.cpp:1213-1222 | when padding ends every abandoned burst has all its beats |
| AsyncRecovery.FreshStart | tb/tb_axi_async_bridge.cpp:1224-1242 | the epoch's beats are then placed as if nothing had come before |
| AsyncRecovery.NothingFreshIsLost | tb/tb_axi_async_bridge.cpp:1234-1241 | no real beat of this epoch went into an older burst |
| AsyncRecovery.RealDataPasses | tb/tb_axi_async_bridge.cpp:1213-1242 | the real beats that reach the memory side carry, in order, exactly the data sent while no abandoned burst was short |
| XbarSlave.SlaveBfm.Write | tb/tb_axi_xbar.cpp:136-147 | only strobed bytes of the aligned word change |
| XbarSlave.SlaveBfm.StepAw | tb/tb_axi_xbar.cpp:462-488 | address acceptance, with an early beat completing the burst |
| XbarSlave.SlaveBfm.TakeBeat | tb/tb_axi_xbar.cpp:494-508 | one beat: audit, masked write, address, count, response |
| XbarSlave.SlaveBfm.StepW | tb/tb_axi_xbar.cpp:490-524 | normal and early data acceptance |
| XbarSlave.SlaveBfm.Step | tb/tb_axi_xbar.cpp:459-536 | one cycle in the order address, data, response |
| XbarSlaveTheorems.StepFramesIff | tb/tb_axi_xbar.cpp:473-484 | an early beat is paired as AXI pairs it iff its burst has one beat |
| XbarSlaveTheorems.SlaveRuns | tb/tb_axi_xbar.cpp:459-536 | in every run beats left is positive iff busy, the address is start + 16 taken, responses balance, memory is the fold of masked writes |
| XbarSlaveTheorems.AuditedRuns | tb/tb_axi_xbar.cpp:172-182 | the audit counters are the filler beats and the misplaced WLASTs |
| XbarSlaveTheorems.AbandonedBurstIsPadded | tb/tb_axi_xbar.cpp:3392-3546 | k real beats and n-k filler leave the slave idle, counts right, memory the k real writes, next burst at its own address |
| XbarSlaveReads.MaskedByte | tb/tb_axi_xbar.cpp:131-147 | a masked write changes exactly the strobed bytes of the 16 around its address |
| XbarSlaveReads.ReadsLatest | tb/tb_axi_xbar.cpp:128-147 | after every orderly run from an empty slave byte b of the word at x is that of the latest beat with strobe b whose address lies in the same 16 bytes, and zero if there is none |
| XbarSlaveReads.PaddedReadsBack | tb/tb_axi_xbar.cpp:3392-3546 | the real beats of a padded burst read back |
| XbarS3Reads.QueuedSlave.Step | tb/tb_axi_xbar.cpp:787-829 | one cycle of the queued read model |
| XbarS3Reads.QueuedReadsAreServed | tb/tb_axi_xbar.cpp:261-280 | every accepted read is served once, whole and uninterleaved, under any hold and order; at most four outstanding |
| XbarS3Reads.ServiceOrder | tb/tb_axi_xbar.cpp:787-829 | in every run an idle slave takes up the oldest waiting read, or the youngest when switched so, delivers nothing while held, and takes an address iff fewer than four reads are outstanding |
| XbarQuarantine.NextTailOk | rtl/soc/axi_xbar.v:3991-3999 | the nine-bit remainder gives the right tail for every length up to 255 |
| XbarQuarantine.ServedIff | rtl/soc/axi_xbar.v:4421-4684 | a cycle leaves every master served iff no address meets a burst of its own slot still owed |
| XbarQuarantine.KeptIff | rtl/soc/axi_xbar.v:4334-4350 | a cycle forgets nothing the slave owes iff the timer does not give up on a burst in it |
| XbarQuarantine.StepIff | rtl/soc/axi_xbar.v:4334-4684 | a cycle of slots, quarantine, timer and slave keeps the whole invariant iff it is neither the race nor a time-out |
| XbarQuarantine.ReadsAreAnswered | tb/tb_axi_xbar.cpp:3855-4034 | in every run in which the timer never gives up on a burst, races included: every ended read got len+1 beats and one RLAST unless its own master gave up, and nothing owed is forgotten |
| XbarQuarantine.EveryAnswerIsTrue | rtl/soc/axi_xbar.v:3831-3841 | in every run whose addresses meet no stale burst: every beat of an ended read of this port is the slave's own or an error, a read answered locally carries the response its request calls for, and a master is given up only after leaving a beat untaken for more than 1023 cycles |
| XbarQuarantine.AdmittedIff | rtl/soc/axi_xbar.v:4730-4743 | a read is admitted iff it wins, the port is open, no flush is on, no address waits and every burst owed has a slot that waits for it |
| XbarQuarantine.LocalReadsAreTaken | rtl/soc/axi_xbar.v:4785-4800 | a read to be answered locally is taken when it wins, with its length and response |
| XbarQuarantine.AlwaysServedIff | rtl/soc/axi_xbar.v:4421-4684 | the masters are served throughout a run iff no address of it meets a stale burst of its own slot |
| XbarQuarantine.ClashNeedsTimeOut | rtl/soc/axi_xbar.v:4334-4350 | that takes a time-out with a burst owed |
| XbarQuarantine.QuarantineIsExact | tb/tb_axi_xbar.cpp:2603-2686 | stale beats are taken and never delivered, live beats only by their master, no read admitted while one is owed, a quarantine lifted only by its own last beat or the timer |
| XbarQuarantine.AbortedEndsInError | rtl/soc/axi_xbar.v:4558-4617 | a read cut off by a flush or by its master's silence ends in an error |
| XbarQuarantine.QuarantineEnds | rtl/soc/axi_xbar.v:4334-4350 | whatever the inputs, a quarantine is over within one timer window for each stale burst and one more |
| XbarQuarantine.RaceSticks | rtl/soc/axi_xbar.v:4558-4617 | the race leaves a quarantine with nothing behind it |
| XbarQuarantine.HollowStep | rtl/soc/axi_xbar.v:4326-4350 | an empty quarantine outlasts every cycle but the timer's last, which lifts it and closes the port unless a flush begins in it |
| XbarQuarantine.HollowUntilTimer | rtl/soc/axi_xbar.v:4334-4350 | with nothing left to arrive the block lasts exactly until the timer, for all inputs |
| XbarQuarantine.HollowExpires | rtl/soc/axi_xbar.v:4339-4342 | and it is the timer that lifts it and closes the port |
| XbarQuarantine.ClosedUntilFlush | rtl/soc/axi_xbar.v:4406-4410 | a closed port stays closed until a flush begins |
| XbarQuarantine.ClosedAnswersErrors | rtl/soc/axi_xbar.v:3831-3867 | a read that comes while the port is closed or being flushed is not admitted and is answered in full with errors |
| XbarQuarantineRuns.RaceIsReachable | tb/tb_axi_xbar.cpp:4458-4619 | a run from reset reaches the race |
| XbarQuarantineRuns.RaceRecovers | rtl/soc/axi_xbar.v:4334-4410 | the port is blocked until the timer, closed until the next flush, and then admits reads |
| XbarQuarantineRuns.LateBurstMeetsNewRead | rtl/soc/axi_xbar.v:4334-4410 | a run from reset in which a time-out and a flush let a new read receive an old read's beat |
| XbarOverlay.BusyStep | rtl/soc/axi_xbar.v:1313-1344 | a slot becomes busy exactly by taking an address and idle exactly by an RLAST handshake or a withdrawal |
| XbarOverlay.SlotsAreTheLedger | rtl/soc/axi_xbar.v:3751-3757 | in every run: address handshakes seen, this cycle's included, less RLAST handshakes and withdrawals, are the busy CPU slots |
| XbarOverlay.DisarmIff | rtl/soc/axi_xbar.v:1345-1362 | in every run the overlay is disarmed exactly when that was requested and every address the CPU saw accepted, this cycle's included, has had its RLAST or been withdrawn |
| XbarOverlay.DisabledIff | rtl/soc/axi_xbar.v:1345-1362 | over every run from reset: the overlay is disabled iff, with no rearm since, a ROM fetch was seen and at some later tick no CPU read was under way |
| XbarOverlay.EarlyCommitIff | rtl/soc/axi_xbar.v:1317-1325 | the handshake count it replaced is zero over a read under way iff nothing was withdrawn and every read under way shows its handshake in this very cycle |
| XbarOverlay.EarlyCommitIsReachable | tb/tb_axi_xbar.cpp:4919-4992 | the fetch that requests the disarm is such a read |
| XbarOverlay.RlastCountLeaks | tb/tb_axi_xbar.cpp:4821-4917 | once a read was withdrawn that count is positive in every continuation |
| LogText.DecimalRoundTrip | tb/check_periph_event_log.py:46-51 | printed numbers parse back |
| LogText.LinesOfUnlines | tb/check_periph_event_log.py:44-45 | unbroken lines are read back as written |
| LogText.CategoryFound | tb/check_periph_event_log.py:15 | the scanner finds every match of the category pattern |
| LogText.CategorySound | tb/check_periph_event_log.py:15 | and nothing else |
| LogText.EventFound | tb/check_periph_event_log.py:16 | the scanner finds every match of the event pattern |
| LogText.EventSound | tb/check_periph_event_log.py:16 | and nothing else |
| EventLog.PeriphEventLog.SetCategoryFilter | tb/periph_event_log.cpp:15-21 | the filter is the ordered set of non-empty names |
| EventLog.LessIff | tb/periph_event_log.h:71-74 | the tables' order is lexicographic |
| EventLog.CommasInOrder | tb/periph_event_log.cpp:40-48 | the filter line lists the names in order |
| EventLog.PeriphEventLog.WatchCategory | tb/periph_event_log.cpp:23-27 | an allowed category enters the table, counts unchanged |
| EventLog.PeriphEventLog.WriteDetail | tb/periph_event_log.cpp:98-119 | a detail line below the limit, one notice at it |
| EventLog.PeriphEventLog.RecordCall | tb/periph_event_log.cpp:85-120 | both tables and the file after a record |
| EventLog.PeriphEventLog.OpenLog | tb/periph_event_log.cpp:33-50 | the header |
| EventLog.PeriphEventLog.CloseLog | tb/periph_event_log.cpp:52-61 | the summary is appended |
| EventLog.LoadCounts | tb/check_periph_event_log.py:41-53 | the two dictionaries of the lines' matches |
| EventLog.CheckExpectations | tb/check_periph_event_log.py:56-67 | no failures iff every expectation holds |
| EventLogTables.CategoriesAreTallies | tb/periph_event_log.cpp:63-83 | count, first and last of a category are those of its accepted records |
| EventLogTables.EventsAreTallies | tb/periph_event_log.cpp:63-96 | and of an event |
| EventLogTables.TableHoldsTouched | tb/periph_event_log.cpp:23-27 | a category is listed iff watched or recorded |
| EventLogTables.CategoriesBalanceEvents | tb/periph_event_log.cpp:94-96 | a category's count is the sum of its events' counts |
| EventLogRoundTrip.RunWrites | tb/periph_event_log.cpp:98-119 | however a fresh logger is watched, opened, fed and closed: while open the file holds the header and, of the records accepted since the open, one line for each below the limit and one notice at it |
| EventLogRoundTrip.BodyIs | tb/periph_event_log.cpp:98-119 | with one open these are the first `limit` records in order and at most one notice |
| EventLogChecker.ReadBack | tb/periph_event_log.cpp:122-184 | for every order of watches, opens and records the closed log reads back as the tables |
| EventLogChecker.CategoriesReadBack | tb/check_periph_event_log.py:41-53 | a category is read back iff it was watched or recorded and its name is word characters, with the number of accepted records, watched zeros included |
| EventLogChecker.EventsReadBack | tb/check_periph_event_log.py:41-53 | an event is read back iff it was recorded and its key is two names, with the number of accepted records |
| EventLogExpectations.VerdictIs | tb/check_periph_event_log.py:56-67 | for every clean run the checker's verdict on an expectation is that its name is word characters, was watched or recorded through the filter, and was recorded as often as expected |
| EventLogExpectations.CountIsTally | tb/periph_event_log.cpp:85-96 | a category's count is the number of calls that are on, given, and let through the filter |
| EventLogDetail.DetailReadsBack | tools/asc_wav_from_periph_log.py:24-29 | the reader of detail lines recovers cycle, committed, pc, category, event, address and value |
| EventLogForging.BreakForges | tb/check_periph_event_log.py:44-47 | after any run, one record whose detail carries a line break and the text of a count makes the closed log read back that category, counted or not |
| EventLogForging.SpaceForges | tb/check_periph_event_log.py:15 | after any run, a watched name with a space and the text of a count is read back as the shorter name |
| XaDecoder.Decoder.Next | tb/tb_asc_easc.cpp:33-53 | one call: new state, sample or end of stream |
| XaDecoder.ShiftIsExact | tb/tb_asc_easc.cpp:36-45 | the shifted nibble is the signed nibble times 2^(12-shift) |
| XaDecoder.NoOverflow | tb/tb_asc_easc.cpp:46-49 | no intermediate exceeds 32 bits for any coefficients |
| XaDecoder.DecoderIsReference | tb/tb_asc_easc.cpp:28-54 | after k calls position and history are those of the block format, and the output is the reference's |
| XaDecoder.OutputsDecode | tb/tb_asc_easc.cpp:33-53 | what any number of calls give is a decoding by the format as a relation: nibble times 2^(12-n) plus the integer y with 64y <= c[2f+1]x1 + c[2f]x2 + 32 < 64y + 64, held to 16 bits |
| XaDecoder.DecodingIsUnique | tb/tb_asc_easc.cpp:46-49 | a stream has one decoding |
| XaDecoder.EndIff | tb/tb_asc_easc.cpp:34-39 | a call fails exactly when the stream is too short |
| XaDecoder.WholeBlocksSuffice | tb/tb_asc_easc.cpp:28-54 | fifteen bytes per started block always suffice |
| AdbFrame.DecodeResponse | tb/tb_adb_phy.cpp:195-227 | the reading of the mid-cells from the first low sample; silence iff never low |
| AdbFrame.FrameDecodesIff | tb/tb_adb_phy.cpp:195-227 | every frame within its pulse widths yields its two bytes iff it starts by tick 524; a later one is a bad stop, one beyond the scan silence |
| AdbFrame.MaxLowRun | tb/tb_adb_phy.cpp:240-252 | the longest run of low samples |
| ViaShift.ViaModel.TakeBit | tb/tb_adb_pic_phy.cpp:117-131 | one sampled rising edge, with resynchronisation |
| ViaShift.ViaModel.GiveBit | tb/tb_adb_pic_phy.cpp:108-116 | one edge of shifting out |
| ViaShift.ViaModel.MonitorTick | tb/tb_adb_pic_phy.cpp:104-145 | one tick of both monitors |
| ViaShift.EveryRun | tb/tb_adb_pic_phy.cpp:104-145 | in every run the bytes received are exactly those of the reference grouping of sampled edges, with resynchronisation and the driver's resets; pulses tile time, alternate and are never empty |
| ViaShift.ByteTravels | tb/tb_adb_pic_phy.cpp:212-233 | any byte shifted out over sixteen edges is received when gaps stay within the limit |
| ViaShift.ArmedByteTravels | tb/tb_adb_pic_phy.cpp:212-233 | a byte armed on an idle shift register is received over the next sixteen edges |

## Left out

- DDR bridge hazard check: the line ranges kept for outstanding writes are not modelled; a read may be held back in any cycle, and reads are proved over memory that does not change during the run of reads.
- DDR bridge read skid: its two entries are a list, not registers with pointers.
- DDR bridge write ids and responses other than id, OKAY or SLVERR, the power-on reset inside a run, and the simulation-only self-checks.
- Data words of 32 bits: beats are modelled as byte lanes in address order.
- Asynchronous FIFOs, clock crossing and the reset handshake that gates the recovery events.
- Write strobes of the asynchronous bridge's slave model: it ignores them, and so does the model.
- Crossbar write slots, arbitration fairness, address decoding, and the slot watchdogs (disabled in the shipped configuration).
- The crossbar slave's read channel on port 0, its stall counters (any stall pattern is allowed instead) and debug counters.
- The checker's command line and the parsing of expectation strings; of the sound tool, everything after reading a line.
- 64-bit wrap-around of the logger's counters, settings changed after the first call, and the handle leaked by opening an open log.
- Files that cannot be opened, and bytes that are not valid text.
- ADB bit driver and the device side of the ADB bus.
