# Q-Factor control loop: a verified model

Q-Factor tunes data transfer nodes (DTNs) while they transfer. A *destination* DTN watches
the queue occupancy and hop delay that the network reports with its packets. When both stay high it
sends a QINFO message to the *source* DTN, which then paces its traffic with `tc`; when the
congestion is over it sends RESET, and when the link falls idle CLEANUP. Beside this loop, each DTN
tunes `net.ipv4.tcp_wmem` by feedback, keeps tables of its peers, estimates its retransmission rate,
and checks its kernel settings once at start-up.

This project models that behaviour in Dafny and proves what it keeps over every run.

| file | what it models |
|---|---|
| `MessageRing.dfy` | the messages, and the ring `sMsg` that carries them to the sending thread |
| `RingThreads.dfy` | the ring's producers and its consumer, interleaved under one mutex and two condition variables |
| `Destination.dfy` | the destination: three timers, three flags, the log of queued messages |
| `Pacing.dfy` | the source: the shared pacing record and the root queueing discipline |
| `EndToEnd.dfy` | both sides joined by the ring |
| `SharedPacing.dfy` | several destinations acting on one source |
| `Stabilisation.dfy` | one node on an idle link |
| `WmemTuner.dfy` | the hill climbing on `tcp_wmem` with its back-off counters |
| `RetransmissionWindow.dfy` | the window of the last ten interval counts |
| `PeerTable.dfy` | peer tables, housekeeping, cyclic scan |
| `Framing.dfy` | `readn` and `writen` over short counts and interruptions |
| `Words.dfy`, `Jhash.dfy` | unsigned 32-bit arithmetic, Jenkins' hash |
| `Vlan.dfy` | VLAN push, pop and parse on a packet with headroom |
| `Assessment.dfy` | decimal triples, and the assessment pass over the kernel settings |

Throughout, each state machine is a `Next` function over events; a class holds the program's own
variables and its methods are proved to take exactly those steps; and the lemmas quantify over whole
histories (`Behavior`, `Reachable`). External inputs (samples, bitrates, counters, whether a timer could
be started, how many bytes a call moved) are parameters of the events, so every theorem holds for all
of them.

## What turned out not to hold

These properties one would expect of the code are false of it. For each, a lemma gives the exact condition
under which it holds, step by step and, where it is an invariant, over whole runs; every such invariant also has a run that breaks it.

- *A debounce timer runs exactly while `vq_TimerIsSet`.* A calm sample clears the flag but leaves the occupancy timer
  running if retransmission use has been switched off under it; nothing else breaks the agreement
  (`Destination.StepKeepsTimers`, `Destination.TimersAgreeThroughout`, `Destination.OrphanedTimer`).
- *A timer that fires has been debounced.* Exactly if, as it fires, `vq_TimerIsSet` holds and the stored data has a hop
  delay just when it is the hop timer (`Destination.DebouncedExactly`, `Destination.UndebouncedExpiry`); always, if no timer was abandoned before
  (`Destination.Debounce`).
- *Two QINFOs are separated by an expiry or an idle cancel.* Exactly if a window was opened between them
  (`Destination.QinfoPairs`, `Destination.UnspacedQinfos`).
- *A source that was sent a QINFO is owed a RESET or CLEANUP.* Exactly not after a QINFO that went out with nothing
  outstanding and whose evaluation timer could not be started (`EndToEnd.StepKeepsOwed`, `EndToEnd.OwedThroughout`). With
  everything delivered and nothing outstanding the source can then still be paced, exactly if its own link has not been
  idle since (`EndToEnd.StrandedExactly`, `EndToEnd.FailedStartStrandsPacing`).
- *A destination that asked for a rate is given one until it says otherwise.* Exactly not where one of several
  destinations releases the shared record while another still asks, or where the source's own link is idle while one
  asks (`SharedPacing.StepKeepsHeld`, `SharedPacing.HeldThroughout`, `SharedPacing.TwoDestinations`,
  `SharedPacing.IdleWithdraws`).
- *A record that says REGULAR means a rate is in force.* Exactly not after the retransmission branch has lifted a REGULAR
  pacing (`Pacing.StepKeepsTruthful`, `Pacing.RegularThoughUnpaced`, `Pacing.LiftedUnrecorded`).
- *The tuner's buffer maximum is bounded.* Exactly not if a command buffer that was never written is run
  (`WmemTuner.RangeExactly`), which happens exactly if ten applications in a row bring no new highest bitrate, none
  ever did, and the check goes ahead (`WmemTuner.UnsetIff`, `WmemTuner.UnsetIsReached`).
- *A push undoes a pop.* Only for C-TAGs (`Vlan.PushUndoesPop`).
- *The peer counter and the role flag tell the truth.* Not after a new peer has met a full table: the program then counts
  a peer that is in no slot, and never gives up the role again (`PeerTable.OverflowIsForEver`, `PeerTable.EleventhPeer`). The one other case is
  degenerate, a connection from address 0 to an empty table (`PeerTable.ObserveKeepsValid`, `PeerTable.ValidThroughout`).
- *Both versions of the assessment do the same.* Not on a gated triple (`Assessment.VersionsDiffer`, `Assessment.GatedLine`).

Where the code and its documentation disagree the model follows the code. The top-level `README.md` says that pacing is
set back to its original state after the transfer: a RESET leaves an `fq nopacing` discipline in place, and only a
CLEANUP or an idle measurement removes it (`Pacing.HandlerOutcomes`). `userspace/readme.txt` recommends
`bbr`, while the tables ask for `htcp`.

## Model

| member | source | states |
|---|---|---|
| MessageRing.IndexTests | userspace/user_dtn.c:703-718 | the two index tests mean "19 messages" and "no message", and the ring never holds more than 19 |
| MessageRing.PutAppends | userspace/user_dtn.c:705-718 | a put appends to the FIFO contents, across index wrap-around, and overwrites no unread slot |
| MessageRing.TakeRemovesOldest | userspace/user_dtn.c:7362-7367 | a take removes the oldest message, across wrap-around |
| MessageRing.Buffer.MustWait | userspace/user_dtn.c:733-734 | a producer waits exactly while 19 messages are unread |
| MessageRing.Buffer.Deposit | userspace/user_dtn.c:736-745 | the producer's critical section appends one message in place |
| MessageRing.Buffer.Remove | userspace/user_dtn.c:7362-7367 | the consumer's critical section returns and removes the oldest message |
| RingThreads.NextKeepsInv | userspace/user_dtn.c:731-747 | every step of any number of producers and the consumer, spurious wake-ups included, keeps FIFO order and the wake-up accounting |
| RingThreads.NoLostWakeup | userspace/user_dtn.c:7359-7370 | in every reachable state with the mutex free, an unsignalled sleeping consumer has an empty ring, and unsignalled sleeping producers imply no more free slots than woken producers |
| RingThreads.NeverAllAsleep | userspace/user_dtn.c:756-772 | producers and consumer are never all asleep |
| RingThreads.NoDeadlock | userspace/user_dtn.c:797-814 | while a message is unread or a producer waits, some thread already taking part can move without a spurious wake-up |
| RingThreads.FifoOverRuns | userspace/user_dtn.c:1588-1603 | what has been read is a prefix of what was written, and the rest is what the ring holds, under every interleaving |
| RingThreads.NextKeepsMessages | userspace/user_dtn.c:705-718 | a step takes a message from a producer only by writing it, and writes nothing else |
| RingThreads.MessagesConserved | userspace/user_dtn.c:705-718 | under every interleaving, the messages a producer has brought are, in order, those it has written and then the one it still holds: none is lost, doubled or overtaken |
| RingThreads.VisitsTakeOne | userspace/user_dtn.c:7359-7370 | under every interleaving, the consumer takes exactly one message each time it comes |
| Destination.HopReports | userspace/user_dtn.c:1320-1323 | the latency leads from the ingress to the egress time across a wrap of the clock; the occupancy is what the low three bytes of the queue word spell |
| Destination.HighMeans | userspace/user_dtn.c:1363-1416 | a hop reports one occupancy and one latency, and is high if and only if the occupancy is over its threshold and so is the latency, or retransmissions count |
| Destination.StepKeepsTimers | userspace/user_dtn.c:1463-1474 | "at most one debounce timer, running exactly while `vq_TimerIsSet`; evaluation timer running exactly while no window may open" survives a step if and only if the step is not a calm sample that finds the occupancy timer running with retransmission use off |
| Destination.TimersAgreeThroughout | userspace/user_dtn.c:1174-1248 | over every history, that agreement holds in every state if and only if no sample abandons a timer so |
| Destination.OrphanedTimer | userspace/user_dtn.c:1469-1473 | a run in which it happens: switched off under the timer, then a calm sample |
| Destination.SampleDecidesTimer | userspace/user_dtn.c:1363-1474 | over the words of the hop: after a sample a debounce timer runs if and only if the sample was high and one was running or could be started, or the sample abandons one; which timer it is and what it will report |
| Destination.PendingHasCause | userspace/user_dtn.c:1181-1192 | in every history whatever, a pending timer was armed by an earlier high sample whose data it carries, still runs, and nothing quiet and no expiry came since |
| Destination.DebouncedExactly | userspace/user_dtn.c:686-727 | in every history, a timer that fires reports the sample that armed it, with nothing quiet and no expiry since, if and only if `vq_TimerIsSet` holds and the stored data is for this timer |
| Destination.UndebouncedExpiry | userspace/user_dtn.c:779-820 | a run in which an abandoned occupancy timer reports congestion after a calm sample |
| Destination.Debounce | userspace/user_dtn.c:686-727 | in every history that has abandoned no timer, and over the words of the hop: a timer that fires reports the sample that armed it, above the thresholds then in force, with no calm sample or idle measurement in between; it queues exactly one QINFO if a window may open and none otherwise |
| Destination.FlagsTellThroughout | userspace/user_dtn.c:701-723 | over every history, the windows opened by the Kafka consumer included, the flags describe the message log, and each message comes only where the protocol allows it |
| Destination.QinfosAreSpaced | userspace/user_dtn.c:1147-1172 | after a window has been opened the next QINFO waits for its expiry or an idle cancel; without Kafka it is always a QINFO that opened the window |
| Destination.QinfoPairs | userspace/user_dtn.c:701-723 | between any two QINFOs of a history a window is closed if and only if one is opened |
| Destination.UnspacedQinfos | userspace/user_dtn.c:1154-1169 | a run of two QINFOs in a row whose timer starts both failed |
| Destination.AnswersHaveQinfos | userspace/user_dtn.c:1476-1483 | before each RESET or CLEANUP there is a QINFO that comes after every earlier RESET or CLEANUP |
| Destination.SentPacingMeansUnanswered | userspace/user_dtn.c:1155-1161 | `vSentPacingOver` holds if and only if a QINFO that opened a window without Kafka is unanswered |
| Destination.QuietAnswers | userspace/user_dtn.c:4749-4761 | a calm sample outside a window, and the second of two idle measurements, leave no QINFO unanswered |
| Destination.StateRemembers | userspace/user_dtn.c:4727-4797 | over every history, `vTwiceInaRow` is the last measurement, `src_ip_addr` the sender of the last sample, and the thresholds those last set |
| Destination.AnswersExactly | userspace/user_dtn.c:1476-1483 | when exactly a RESET, a CLEANUP or a START goes out, in terms of the message log and the events so far, and the addresses it carries |
| Destination.ClosesExactly | userspace/user_dtn.c:4749-4754 | a window is closed if and only if its timer expires or it is open at the second idle measurement in a row |
| Destination.Handlers.StartEvaluationTimer | userspace/user_dtn.c:1147-1172 | opens the window, and marks it as sent only without Kafka, if the timer starts; changes nothing otherwise |
| Destination.Handlers.OnHopTimer | userspace/user_dtn.c:686-727 | takes the hop timer's step of the state machine, on which the history lemmas rest |
| Destination.Handlers.OnOccTimer | userspace/user_dtn.c:779-820 | takes the occupancy timer's step |
| Destination.Handlers.OnEvaluationTimer | userspace/user_dtn.c:668-684 | takes the evaluation timer's step |
| Destination.Handlers.OnKafkaAdjustment | userspace/user_dtn.c:3619 | the Kafka consumer's start of the evaluation timer takes its own step: a window without a QINFO, not remembered in `vSentPacingOver` |
| Destination.Handlers.EvaluateBoth | userspace/user_dtn.c:1174-1199 | arms the hop timer with the sample's data unless a timer is set or arming fails |
| Destination.Handlers.EvaluateOccupancy | userspace/user_dtn.c:1221-1248 | arms the occupancy timer, with delay 0, unless a timer is set or arming fails |
| Destination.Handlers.OnSample | userspace/user_dtn.c:1363-1484 | one pass of the sample loop takes the sample's step, arm, or disarm and perhaps RESET, and then announces a new peer |
| Destination.Handlers.OnReport | userspace/user_dtn.c:1279-1607 | a report is the steps of its hops in order |
| Destination.Handlers.OnMeasurement | userspace/user_dtn.c:4727-4797 | the idle-link part takes the measurement's step: disarm, cancel the window, CLEANUP |
| Pacing.NextKeepsConsistent | userspace/user_dtn.c:3469-3674 | every handler in either mode keeps the record true to the root discipline, runs at most one command, sets a discipline up if and only if there is none, and never runs `tc qdisc change` on a missing root |
| Pacing.AlwaysConsistent | userspace/user_dtn.c:3972-4053 | hence over every history the flag is 0, 1 or 99, 0 exactly on a default root, 99 only without pacing, and the recorded rate is the rate in force; the "Something off" branches are dead |
| Pacing.HandlerOutcomes | userspace/user_dtn.c:3948-4160 | what the link is held to after each message in tuning mode, by the bitrate, the share, the retransmissions and the discipline before |
| Pacing.KafkaOutcomes | userspace/user_dtn.c:3465-3685 | what the link is held to after a Kafka message in tuning mode, by used and residual bandwidth, the speed of the NIC and the discipline before: when nothing is run, when pacing is lifted, when a rate is set and which |
| Pacing.OnlyTuningCounts | userspace/user_dtn.c:3249-3272 | however often the mode is switched, a history ends in the state to which its events in tuning mode alone would have led |
| Pacing.QinfoRates | userspace/user_dtn.c:3948-3966 | every rate a QINFO sets lies in [2, 34], for every bitrate, share and record; which of bound or share it is |
| Pacing.KafkaRates | userspace/user_dtn.c:3472-3562 | a Kafka message sets a rate between 10% and 95% of the NIC speed, never above 40, and lifts only a REGULAR pacing |
| Pacing.StepKeepsTruthful | userspace/user_dtn.c:4082-4160 | every event of every handler, acted on or not, keeps "REGULAR means a rate in force", with exactly that exception |
| Pacing.RegularThoughUnpaced | userspace/user_dtn.c:4082-4160 | over every history of all handlers, a record that says REGULAR means a rate in force in every state, if and only if the retransmission branch never meets REGULAR with a rate above the ceiling |
| Pacing.LiftedUnrecorded | userspace/user_dtn.c:4082-4160 | a run of two QINFOs that ends unpaced with REGULAR recorded |
| Pacing.Source.QinfoAssessment | userspace/user_dtn.c:3885-4200 | the handler's branches take the QINFO step and keep the record consistent |
| Pacing.Source.ResetPacing | userspace/user_dtn.c:3219-3278 | likewise for RESET |
| Pacing.Source.CleanupResetPacing | userspace/user_dtn.c:3079-3103 | likewise for CLEANUP |
| Pacing.Source.QinfoAssessmentKafka | userspace/user_dtn.c:3398-3690 | likewise for Kafka; asks for the evaluation timer exactly when it issued a command |
| EndToEnd.NextKeepsInv | userspace/user_dtn.c:6887-6947 | every step of destination, delivery and source keeps: messages sent are messages handled and then those in the ring, in order, and the record fits the last control message handled |
| EndToEnd.RegularIsTemporary | userspace/user_dtn.c:1476-1483 | in every state of every run, while the source says REGULAR the destination still owes an answer, or one is under way, or the last evaluation timer could not be started |
| EndToEnd.UnpacedOnceAnswered | userspace/user_dtn.c:3247-3272 | with everything delivered and nothing outstanding the source is held to no rate unless the last timer start failed; after a last CLEANUP record and discipline are the initial ones |
| EndToEnd.StepKeepsOwed | userspace/user_dtn.c:1154-1169 | "an answer is owed if the last control message was a QINFO" survives a step if and only if the step is not a report with nothing outstanding whose `timer_settime` fails |
| EndToEnd.OwedThroughout | userspace/user_dtn.c:701-723 | over every run, it holds in every state if and only if no step is such a report |
| EndToEnd.LastIsQinfo | userspace/user_dtn.c:1147-1172 | the last control message sent is a QINFO if and only if it is unanswered or its timer start failed |
| EndToEnd.RegularExactly | userspace/user_dtn.c:6887-6947 | after any run the source can be REGULAR, for some measurements it makes, if and only if the last control message it handled was a QINFO and its link has not been idle since |
| EndToEnd.StrandedExactly | userspace/user_dtn.c:3948-4053 | a run that ends with everything delivered and nothing outstanding leaves room for REGULAR if and only if the last timer start failed and the source's link has not been idle since |
| EndToEnd.FailedStartStrandsPacing | userspace/user_dtn.c:1154-1169 | a run in which a failed timer start leaves the source REGULAR with nothing outstanding |
| SharedPacing.StepKeepsHeld | userspace/user_dtn.c:3249-3272 | "a rate is in force while some destination asks for one" survives a step if and only if the step is neither one destination releasing the source while another still asks, nor an idle link of the source while one asks |
| SharedPacing.HeldThroughout | userspace/user_dtn.c:3247-3272 | over every run with any number of destinations, it holds in every state if and only if no step is such |
| SharedPacing.OneDestinationIsHeld | userspace/user_dtn.c:3885-4053 | with a single destination, a rate is in force whenever it asks for one, in every state, if and only if the link is never idle while it asks |
| SharedPacing.TwoDestinations | userspace/user_dtn.c:3257-3267 | a run in which the RESET of one destination lifts the pacing of another |
| SharedPacing.IdleWithdraws | userspace/user_dtn.c:4763-4776 | a run in which an idle link of the source removes what a destination asked for |
| Stabilisation.TwoIdlesReset | userspace/user_dtn.c:4727-4770 | from any flags, two idle measurements bring flags and pacing to their initial values, stop every timer a flag knows of, and send exactly one CLEANUP if a QINFO was open and nothing otherwise |
| Stabilisation.StaysAtRest | userspace/user_dtn.c:4734-4791 | from then on further idle measurements change nothing, queue nothing, run nothing |
| Stabilisation.ReachableNodesSettle | userspace/user_dtn.c:4727-4791 | the same from every reachable state of the source's handlers and any flags of the destination |
| WmemTuner.NextKeepsExclusive | userspace/user_dtn.c:5033-5081 | at most one reason to wait is pending, no counter overruns, and the "invalid value for tune" branch is dead |
| WmemTuner.BackOffLengths | userspace/user_dtn.c:5033-5078 | over every history, exactly so many checks are skipped after each pass as its verdict says: five after "sufficient" and "too low", three after a suggestion, none after an exploration; five after a decision to go back to the best, re-applied or not, but none if the next second measures no bitrate |
| WmemTuner.VerdictExactly | userspace/user_dtn.c:2382-2520 | over every history, which verdict a pass that is not skipped comes to, in either mode, and that only applications change the setting |
| WmemTuner.AtMostTenFruitless | userspace/user_dtn.c:5009-5027 | at most ten explorations follow each other without a new highest bitrate |
| WmemTuner.ExplorationDirection | userspace/user_dtn.c:2434-2464 | over every history, an exploration moves the maximum up by 200000 if and only if some bitrate compared so far beats the one compared last before, down otherwise |
| WmemTuner.MaximumStaysInRange | userspace/user_dtn.c:2428-2502 | the maximum stays in [min(start, 400001), max(start, my_tune_max + 199999)] and the other two values are untouched, as long as no unset command is run |
| WmemTuner.RangeExactly | userspace/user_dtn.c:5014-5027 | the setting is sure to stay in that range if and only if no unset command is run |
| WmemTuner.UnsetIff | userspace/user_dtn.c:5014-5017 | an unset command is run if and only if ten applications brought no new highest, none did before, and the check goes ahead |
| WmemTuner.NoUnsetAfterBest | userspace/user_dtn.c:4941-4955 | once a best value is recorded an unset command is never run |
| WmemTuner.UnsetIsReached | userspace/user_dtn.c:5014-5027 | a run of eleven seconds that does run an unset command |
| WmemTuner.HighestDominates | userspace/user_dtn.c:4941-4943 | the highest bitrate is at least every bitrate compared so far |
| WmemTuner.NewHighestMeans | userspace/user_dtn.c:4941-4955 | a bitrate is a new highest if and only if it is compared and none compared before was higher |
| WmemTuner.BestIsPeak | userspace/user_dtn.c:4941-4955 | the best value was applied by an earlier pass, the next bitrate was the highest so far, and no later application equalled it |
| WmemTuner.ReapplicationIsPeak | userspace/user_dtn.c:5014-5027 | the value a re-application brings back is such a best value |
| WmemTuner.Tuner.Evaluate | userspace/user_dtn.c:4922-5031 | the comparison takes the first part of a step |
| WmemTuner.Tuner.CheckBitrate | userspace/user_dtn.c:2372-2533 | the check takes the last part of a step |
| WmemTuner.Tuner.Pass | userspace/user_dtn.c:4922-5088 | one pass of the loop is one step |
| RetransmissionWindow.PushKeepsLastTen | userspace/user_dtn.c:5592-5607 | the ring holds the last ten changes in order, before and after wrap-around |
| RetransmissionWindow.DeltaMeans | userspace/user_dtn.c:5577-5586 | an interval without new packets counts for nothing; otherwise the change leads from one poll to the next |
| RetransmissionWindow.DeltasTelescope | userspace/user_dtn.c:5577-5587 | for monotone counters the changes from any poll on add up to the difference of totals |
| RetransmissionWindow.WindowTelescopes | userspace/user_dtn.c:5577-5640 | hence the window adds up to the newest totals less those ten polls before, without overflow |
| RetransmissionWindow.RateBounded | userspace/user_dtn.c:5612-5650 | for every history of counters that never decrease, in which no interval retransmits more than it sends, the rate of the last min(n, 10) intervals lies in [0, 100 / min(n, 10)]; no sum overflows |
| RetransmissionWindow.RateExactly | userspace/user_dtn.c:5577-5652 | for every such history the rate is the percentage of retransmissions among the packets since ten polls before, or since the start, divided by the number of intervals; zero without packets |
| RetransmissionWindow.Poller.Totals | userspace/user_dtn.c:5613-5640 | the running unsigned sums over the slots in use are the sums over the window modulo 2^64 |
| RetransmissionWindow.Poller.Store | userspace/user_dtn.c:5594-5607 | a change goes into the arrays as one push |
| RetransmissionWindow.Poller.Publish | userspace/user_dtn.c:5609-5652 | the published rate is that of the last ten changes since the last reset |
| RetransmissionWindow.Poller.Found | userspace/user_dtn.c:5573-5671 | a poll that found the peer extends the history by one, keeps the window its last ten changes, and publishes their rate, which for such histories is bounded so |
| RetransmissionWindow.Poller.NotFound | userspace/user_dtn.c:5673-5675 | a poll that did not find it forgets the history and keeps the published rate |
| PeerTable.ObserveKeepsValid | userspace/user_dtn.c:1529-1560 | seeing a peer keeps live addresses distinct, the counter exact and the role right, also with holes, if and only if it is neither a new peer meeting a full table nor address 0 connecting to an empty one |
| PeerTable.SweepKeepsValid | userspace/user_dtn.c:612-632 | housekeeping keeps them too |
| PeerTable.ValidThroughout | userspace/user_dtn.c:7149-7175 | over every history, they hold in every state if and only if no such event happens |
| PeerTable.OverflowIsForEver | userspace/user_dtn.c:1550-1559 | once a new peer has met a full table, the counter exceeds the live slots and the role is held in every later state |
| PeerTable.EleventhPeer | userspace/user_dtn.c:7149-7175 | a run of eleven connections that fills the table and counts the last without a slot |
| PeerTable.SilentPeerLeaves | userspace/user_dtn.c:612-632 | in every history, spoilt or not, a silent peer is gone after the first sweep 18 seconds after it was last seen, and stays away |
| PeerTable.ListedExactly | userspace/user_dtn.c:612-653 | in every history, a peer is listed, with the time it was last seen, if and only if no sweep has come 18 seconds or more after that time |
| PeerTable.SilentPeerGoneIn28 | userspace/user_dtn.c:34-35 | with sweeps at least every 10 seconds, within 28 seconds |
| PeerTable.Peers.See | userspace/user_dtn.c:1529-1587 | the loop with its "+1" index refreshes the peer's slot, takes the first free one, or with a full table only counts, and tells new peers from known ones |
| PeerTable.Peers.ClearExpired | userspace/user_dtn.c:614-628 | clears exactly the expired slots and counts down for each |
| PeerTable.Peers.Housekeep | userspace/user_dtn.c:603-654 | is a sweep of any table, spoilt or not, gives up the role when the counter reaches zero, and keeps a valid table valid |
| PeerScan.Scan | userspace/user_dtn.c:4629-4646 | at most ten steps; no pick if and only if no slot is live; otherwise the first live slot in cyclic order |
| PeerScan.RoundRobin | userspace/user_dtn.c:6368-6385 | on an unchanged table with m live slots, any m picks in a row visit each live slot exactly once |
| Framing.Sender.WriteN | userspace/wrapsomeunix.c:161-193 | all bytes go out in order, or -1 after a proper prefix; never -1 if only short counts and interruptions occur |
| Framing.SendAll | userspace/wrapsomeunix.c:196-208 | records written one after the other make up their concatenation |
| Framing.Receiver.ReadN | userspace/user_dtn.c:6654-6676 | exactly the next `size` bytes, or what is left before the end of the stream |
| Framing.ReceiveAll | userspace/user_dtn.c:6872-6884 | the read loop cuts the whole stream into records |
| Framing.CutUndoesConcat | userspace/user_dtn.c:6654-6676 | cutting undoes concatenation of records of one size |
| Framing.Exchange | userspace/wrapsomeunix.c:161-193 | the records received are the records sent, under every fragmentation and interruption on either side |
| Words.RotationFits | headers/jhash.h:25-28 | the two shifts of a rotation have no bit in common, so that their bitwise or is their sum and a 32-bit word |
| Words.RolExchanges | headers/jhash.h:25-28 | a rotation exchanges the high bits of the word and the low ones |
| Words.RolMovesBits | headers/jhash.h:25-28 | bit i of the word is bit (i + shift) mod 32 of the rotated word |
| Words.XorTwice | headers/jhash.h:33-52 | exclusive or undoes itself |
| Jhash.MixBijective | headers/jhash.h:33-41 | `__jhash_mix` is a bijection on triples of words, with its inverse |
| Jhash.FinalBijective | headers/jhash.h:43-52 | so is `__jhash_final` |
| Jhash.ByteFormIsWordForm | headers/jhash.h:68-142 | `jhash` over the little-endian bytes of n words is `jhash2` over the words, for all n < 2^30 and initial values |
| Jhash.EmptyKey | headers/jhash.h:68-105 | the empty key gives 0xdeadbeef plus the initial value in both forms |
| Jhash.FixedSizesAgree | headers/jhash.h:146-170 | the one-, two- and three-word forms are `jhash2` on one, two and three words |
| Jhash.AbsorbInjective | headers/jhash.h:77-84 | different internal states stay different whatever the rest of the key |
| Jhash.OneBlockDiffers | headers/jhash.h:77-101 | keys of one length that differ within a single block, the last included, reach different states before and after finalisation |
| Jhash.MixRegisters | headers/jhash.h:33-41 | the macro's assignments compute the bijection |
| Jhash.FinalRegisters | headers/jhash.h:43-52 | likewise |
| Jhash.AddTail | headers/jhash.h:86-98 | the fall-through cases add the remaining bytes as one zero-padded little-endian word |
| Jhash.Jhash | headers/jhash.h:68-105 | the byte loop computes the recursive byte hash |
| Jhash.Jhash2 | headers/jhash.h:114-142 | the word loop computes the recursive word hash |
| Vlan.PopUndoesPush | common/rewrite_helpers.h:22-108 | pop(push(p, v)) = p, and returns v mod 2^16, for every frame of at least 14 bytes; the tag stands on the wire as 81 00 and two bytes, the higher first |
| Vlan.PushUndoesPop | common/rewrite_helpers.h:22-108 | pushing the popped tag restores the frame if and only if the tag was a C-TAG |
| Vlan.ParseAfterPush | common/parsing_helpers.h:79-122 | parsing after a push gives v & 0xfff and then the frame's ids, cut to two; the same EtherType while none is cut off, and the cursor 4 further exactly then |
| Vlan.ParseExactly | common/parsing_helpers.h:79-122 | by the bytes of the frame: when it counts as tagged, what an untagged one parses to, and that a tagged one has the id of its outer tag and then what the frame without it parses to, cut to two ids |
| Vlan.ParseEthernet | common/parsing_helpers.h:79-122 | the bounded loop finds what the recursive parser finds, writes only ids found, and never passes the end |
| Vlan.Packet.Push | common/rewrite_helpers.h:69-108 | the copies within the buffer insert the tag; without headroom nothing changes |
| Vlan.Packet.Pop | common/rewrite_helpers.h:22-64 | the copies take the outer tag out and return it; without a complete tag nothing changes |
| Decimal.ParseUndoesPrint | assess-tuning/dtn_tune.c:699-735 | reading a printed triple gives the triple |
| Decimal.ScanTriple | assess-tuning/dtn_tune.c:706-733 | the digit loops read the three numbers |
| Assessment.SecondPassIsQuiet | assess-tuning/dtn_tune.c:626-958 | a second pass over the settings as printed after the first changes nothing, in both versions and for every speed |
| Assessment.SecondPassIsSilent | assess-tuning/dtn_tune.c:626-958 | so a second pass issues no command |
| Assessment.SettingsAfterPass | assess-tuning/dtn_tune.c:507-547 | what a pass leaves behind whatever was there before: the minimum buffers, MTU probing, `fq`, and the backlog of a fast NIC |
| Assessment.AvailableMeans | assess-tuning/dtn_tune.c:877-892 | htcp counts as available if and only if some line is the listing and has the word in its value |
| Assessment.CommandsMean | assess-tuning/dtn_tune.c:626-958 | each command belongs to a line that changes, each such line has its command, in the order of the file |
| Assessment.NeverLowered | assess-tuning/dtn_tune.c:655-798 | what a setting shows afterwards: a single value is raised to exactly the minimum and never lowered, a triple is left alone if its third value suffices or it is gated and otherwise becomes the wanted one, a word becomes the wanted one if and only if it can be had |
| Assessment.VersionsDiffer | userspace/user_assess.c:550-683 | the two versions differ on a line if and only if its triple starts above and ends below what is wanted |
| Assessment.GatedLine | userspace/user_assess.c:550-683 | a `tcp_wmem` line on which they differ |
| Assessment.SameCommands | userspace/user_assess.c:550-835 | so they issue the same commands whenever no triple starts above the wanted first value, 4096 in the tables |
| Assessment.SystemTuning | assess-tuning/dtn_tune.c:626-971 | the pass over the file issues exactly the commands of the lines' decisions, in order |
| Assessment.Lookup | assess-tuning/dtn_tune.c:640-644 | the search ends at the first entry of that name |
| Assessment.OneLine | assess-tuning/dtn_tune.c:655-940 | the nest of conditions takes the decision of the entry |

## Left out

- Everything outside the process: bpftrace, `popen`, `system`, `ethtool`, `tc`, `sysctl`, libbpf, sockets, the Kafka client, the HTTP server and its command line, clocks and logs. They are inputs, or logs of messages and commands.
- Debug-level branches, sequence numbers, message texts and VLAN ids of messages, which change no modelled state.
- Code that is never run: `#if 0` blocks, the second retransmission thread, the rest of `fDoManageRtt`, the `something_wrong_check` branch, the handlers without the suffix 2.
- Signal handlers interrupting each other and races on unlocked flags: each handler, sample or measurement is one step. Only the ring is truly concurrent. A timer signal already on its way when the timer is disarmed is not modelled.
- RingThreads.NoDeadlock: says that some thread can always move, not that every waiting producer is served: neither the mutex nor the condition variables are fair.
- EndToEnd.NextKeepsInv: one destination, one source that knows it, tuning mode, no Kafka. An event with a message takes place when the message gets its slot in the ring: the program too waits for the slot before it changes the flags that follow the message. The sending thread loses no message, while the program drops one whose connection fails.
- SharedPacing.HeldThroughout: takes the messages in the order in which the source handles them, all in tuning mode and from destinations it knows. Kafka is not part of it, as it takes the place of their messages.
- Pacing.Source.QinfoAssessment: rates are real numbers, so the two decimals printed into the command are not rounded; `shm_read` and `shm_write` succeed.
- WmemTuner.Tuner.CheckBitrate: a buffer never written is `Unset`, and running it leaves an arbitrary setting; failures of `popen` and passes skipped because the bitrate exceeds the speed of the NIC, neither of which changes anything, are left out.
- RetransmissionWindow.Poller.Publish: only the published rate; the average of the single rates is merely logged.
- PeerTable.Peers.See: with ten live peers the program writes a new one to slot -1; the counter and the role follow, but what lies before the array is not modelled. Names and ports of peers are left out.
- Framing.Receiver.ReadN: the bytes to come are all there before the reads, as a blocking reader cannot tell the difference. Records share one stream, where the program opens a connection for each.
- Framing.Sender.WriteN: what `Writen` does after a failure (EPIPE, or ending the program) is left out, and so is the end of the program when `readn` fails.
- Jhash.ByteFormIsWordForm: on a big-endian machine unaligned loads read the bytes the other way round, and the two forms differ.
- Vlan.ParseEthernet: returns the EtherType as the number the bytes spell, where the program keeps it in network byte order. The other header parsers are single steps of the same cursor and are left out.
- Vlan.Packet.Push: the kernel's `bpf_xdp_adjust_head` is modelled by its two failures, no headroom and a frame below 14 bytes.
- Assessment.SystemTuning: values must have the form their table entry expects (`Fits`), since the program reads past its buffers on others, and numbers do not overflow `atoi`. Saving settings for the next boot, the menu, the layout of the log, and the NIC checks (ring sizes, MTU, BIOS, `txqueuelen`) are left out; `my_tune_max` is a parameter of the tuner.
