# SmartMic: a verified model of the portable core

SmartMic turns a phone into a push-to-talk microphone for a PC. This project models the stateful
core of that system in Dafny and proves what it promises over whole runs:

* **Router** (`Crossfade`, `SourceStateMachine`, `RingBuffer`, `RouterModel`, `RouterRuns`,
  `SampleContinuity`, `RouterOutput`, `RouterLiveness`, `RouterTimes`, `Router`): the frame-clocked machine that
  decides which microphone is heard. Classes hold the source's fields and are proved against
  functions on values; lemmas over runs of those functions give what is heard, sample by sample,
  how long in milliseconds the router waits, bounded failback, continuous ramps,
  non-interference, and exactly when a source's samples are cut.
* **Rings** (`Slots`, `RingBuffer`, `SpscRing`, `SpscDrops`, `DriverRing`, `DriverAudio`): the
  lock-free ring, once as a queue used by one thread and once with every load, element copy and
  store a step of its own, with and without drops, and the ring shared with the kernel driver
  with its unsigned 64-bit indices and the audio it carries.
* **Media** (`JitterBuffer`, `PhoneMedia`, `Resampler`): ordered playout across 32-bit wrap, talk
  spurts from the sender's header to the played frame under any interleaving, and the stateful
  resampler against a stateless formula.
* **Sealed sessions** (`ReplayWindow`, `SecureChannel`, `LossyDelivery`, `SessionDelivery`,
  `SessionEpochs`, `PeerSessionModel`, `PeerSession`): at-most-once delivery over a network that
  drops, duplicates, reorders and forges, up to the callbacks of an authenticated session, within
  one epoch of the channel and over all of them.
* **Pairing** (`Encoding`, `Pairing`, `PairingOffers`, `PairingAgreement`, `PairingAttempts`,
  `PairingStates`, `PairingBudget`, `PairingCompletes`, `PairingUri`): the four-message handshake with an ideal
  group, hash and signature, its transcript encoding, the offer book and the link in the QR code.
* **Push-to-talk** (`PhonePtt`, `ServicePtt`, `PttChain`, `PttAnswers`, `PttDeliveries`,
  `PttPresses`, `PttReplies`, `PttAudio`, `PttMicrophone`, `MediaLiveness`): the phone's machine, the
  PC's callbacks and audio loop with its jitter buffer, the two of them joined by two sealed
  links, which press an acknowledgement answers, whose audio it was sent on, what leaves the
  microphone, what keeps a phone live and what is played while it is.

`Basics` holds what several modules share. Each stateful class has a `View()` that gives its
value; its methods' `ensures` say `View() == F(old(View()))` for a function F, and the promises
are lemmas about F. Runs are sequences of calls, so a lemma about `Run` or `ApplyAll` speaks of
every call order.

## What the proofs found

The code is kept as it is. Where a natural claim does not hold of it, the lemma named says when it
does.

* **Dropping the oldest item is safe exactly while the reader is not overtaken.** The ring's
  writer stores the reader's index when it overflows. If no such store passes the next item the
  reader will copy or takes an idle reader's index back, deliveries come from strictly increasing
  positions of the input, in every interleaving (`SpscDrops.SafeDropsDeliverInOrder`). Wherever a
  store would break that, the two ends have a way on, to where both are idle, after which one
  item has been returned twice (`SpscDrops.UnsafeDropBreaks`), and such a store is in reach at
  every capacity (`SpscDrops.DropOldestIsNotConcurrent`).
* **Error recovery outlives the tick in which arming times out.** It is left one tick later;
  `RouterRuns.TickKeeps` says exactly when it is seen after a tick, and an unanswered press from
  the start reaches it (`RouterTimes.UnansweredPressRecovers`).
* **Samples are not continuous, although no ramp ever jumps.** A delivering source is in the
  frame exactly when the gate is about to move or the state that the waiting events and the timers
  lead to still wants it (`SampleContinuity.FramesIff`), and every source that the crossfade lets
  through is in it exactly when that holds of each (`SampleContinuity.ContinuousIff`). Of the
  events that can be posted, alone and with the gate still, LocalOnly, Auto and a press during the
  fade back cut the phone (`SampleContinuity.OneEventCuts`), and PhoneOnly cuts the local
  microphone (`SampleContinuity.OneEventCutsLocal`). Runs from the start reach both in every
  configuration (`SampleContinuity.CuttingRunCuts`, `SampleContinuity.LocalCutRun`).
* **Overflow drops the smallest raw sequence number**, which is the oldest packet exactly when
  the queue does not straddle the 2^32 wrap (`JitterBuffers.OverflowDropsOldestIff`); in every
  configuration a run across the wrap drops a newer packet and keeps the oldest
  (`JitterBuffers.OverflowKeepsTheOldest`).
* **The adaptive target decides nothing.** The jitter buffer's target follows the network
  (`JitterBuffers.TargetFollows`), and a comment says that a frame which is not overdue against it
  may still be in flight. But every frame that is missing while others are queued is skipped at
  once, so that whatever the target is the same calls play the same
  (`JitterBuffers.TargetDecidesNothing`).
* **A starved driver ring recovers only if the next write reaches the reader**; otherwise every
  write of that length is refused until the stream is opened again
  (`DriverRings.StarveBoundary`, `DriverRings.StarvedForGood`). One read that asks for more than
  twice what was written leads there (`DriverRings.StarveIsReachable`).
* **Control messages pass a second, narrower window** (512 message numbers, against 1024
  datagrams), so a first arrival of a control message may be refused where media is not:
  exactly when its number is not new within 512 (`SessionDelivery.FirstArrivalServed`), as when
  the 513th control message overtakes the first (`SessionDelivery.OvertakenControlIsLost`).
* **A responder that was never armed holds the empty session and the empty code**, so
  `DifferentCodesNeverPair` and `WrongCodeNeverPairs` count that pair as its first arming.
* **The attempt limit bounds exchanges, not signatures.** No more exchanges fail than the offer
  has attempts left (`PairingBudget.GuessesArePaidFor`), but one exchange is judged as often as
  PAIR3 comes, and a right signature establishes it whatever was judged before
  (`PairingBudget.JudgedAgain`).
* **At most once is per epoch.** The message that established the channel starts a new epoch
  under the same key whenever it arrives again (`SessionDelivery.NewEpochIff`), and at one end
  only. Since its own last start an end serves each number at most once, whatever its peer has
  sealed in however many epochs (`SessionEpochs.EveryEpochGenuineAndOnce`); across starts it does
  not (`SessionEpochs.CopiedProofDeliversAgain`), and two plaintexts may be sealed under one key
  and number (`SessionEpochs.CopiedProofReusesNumber`). A peer that starts again is served exactly
  as far as its numbers are fresh in the old window (`SessionEpochs.ServedIff`), so one heard up
  to number k is not heard again before it has sealed k more (`SessionEpochs.RestartedPeerWaits`).
* **A link that does not fit its 512-byte buffer is cut silently.** It still parses when only the
  expiry is cut, then with an earlier expiry; it round-trips exactly when it fits or when all
  that is cut is an expiry of zero (`PairingUris.LinkRoundTrip`).
* **An acknowledgement names no press.** Going live shows that the PC has handled a further
  request, in every continuation, exactly when at the press no acknowledgement is under way and
  none can be sent without another request (`PttPresses.LiveAnswersARequestIff`); press, release
  and press again reach the other case in a fresh epoch (`PttPresses.StalePressIsReachable`). Even
  then the request may be an earlier press's (`PttPresses.DelayedPressIsReachable`). Going live
  shows that this press or a later one was handled if besides no earlier request is still under
  way. It does not if one is and the automatic mode was selected last, or both windows have room
  for one more message that selects it (`PttPresses.LiveMeansHandledWhen`); the case between is
  open.
* **An acknowledgement may be sent on an earlier press's audio.** A request does not reset the
  phone source. The source is ready on frames of this press or later ones alone, in every
  continuation, exactly when at the press nothing is queued and every frame still under way would
  be refused as already passed (`PttAudio.OwnAudioIff`). Otherwise a press can go live although
  not one frame of it has been packed (`PttAudio.StaleAudioIsReachable`).
* **An acknowledgement is true unless the mode has changed or a source fails.** In the turn that
  sends it the router goes live exactly when no mode change is waiting, or the last one is to
  automatic and a press comes after everything, and no source that the turn reads fails
  (`ServicePtt.AnnouncementHoldsIff`). A waiting release never falsifies it, because a press always
  follows (`ServicePtt.PressFollowsRelease`); a change to mute and a failing microphone do, in
  runs from the start (`ServicePtt.UntrueAnnouncements`).
* **A press between the worker's clock reading and its check fails at once**, because the
  unsigned difference wraps (`PhonePtt.CheckGivesUp`).

## Model

| member | source | states |
|---|---|---|
| Crossfading.RetargetKeeps | windows/audio-service/src/crossfade.cpp:13-27 | a retarget leaves the position alone, aims at the clamped target and is paced by the full duration |
| Crossfading.AdvanceKeeps | windows/audio-service/src/crossfade.cpp:36-41 | one sample moves by exactly the step; the clamp never acts and the forced landing is where the steps end |
| Crossfading.SmoothRun | windows/audio-service/src/crossfade.cpp:13-44 | over any mix of retargets of one duration and samples the position stays in [0,1], moves by at most one part in 48 ms samples at a time and never on a retarget |
| Crossfading.LandsExactly | windows/audio-service/src/crossfade.cpp:36-41 | the target is reached exactly after `remaining` samples, not before, and kept |
| Crossfading.RetargetFinishes | windows/audio-service/src/crossfade.cpp:13-44 | any retarget has arrived after 48 samples for each millisecond |
| Crossfading.ArrivesAfter | windows/audio-service/src/crossfade.cpp:13-44 | a retarget has arrived after n samples exactly when n is at least the part of 48 ms samples that there was to go |
| Crossfading.FullFade | windows/audio-service/src/crossfade.cpp:13-44 | from one end to the other takes exactly 48 ms samples, and no fewer |
| Crossfading.IdealCurveExists | windows/audio-service/src/crossfade.cpp:42-43 | the laws assumed of the gain curves (equal power, exact endpoints) can be met |
| Crossfading.Crossfade.FadeTo | windows/audio-service/src/crossfade.cpp:13-27 | the updated fields are the retargeted ramp, including the early return at distance zero |
| Crossfading.Crossfade.SnapTo | windows/audio-service/src/crossfade.cpp:29-34 | the position is the clamped target and nothing remains |
| Crossfading.Crossfade.Next | windows/audio-service/src/crossfade.cpp:36-44 | one sample further on, and the two gains of the new position |
| Crossfading.GainRamp.RampTo | windows/audio-service/src/crossfade.cpp:46-58 | the gate is retargeted like the crossfade |
| Crossfading.GainRamp.Next | windows/audio-service/src/crossfade.cpp:67-76 | one sample further on, and the gate gain of the new value |
| SourceStates.ModesConfineStates | windows/audio-service/src/source_state_machine.cpp:18-90 | in every run each mode allows only its own states plus error recovery |
| SourceStates.AcceptedMeans | windows/audio-service/src/source_state_machine.cpp:18-90 | what is reported as rejected changes nothing, and the events of the router and of the phone are accepted exactly where they have or have had their effect |
| SourceStates.TalkCycle | windows/audio-service/src/source_state_machine.cpp:30-90 | press, acknowledgement, release and the end of the fade go once round; early release, loss, timeout and a press while returning lead where they should |
| SourceStates.ArmingHistory | windows/audio-service/src/source_state_machine.cpp:30-59 | the machine is arming exactly when some effective press has not been undone since |
| SourceStates.LiveHistory | windows/audio-service/src/source_state_machine.cpp:30-66 | the phone is live exactly when an effective press was acknowledged and nothing since has closed the spurt |
| SourceStates.SourceStateMachine.Apply | windows/audio-service/src/source_state_machine.cpp:18-90 | the new state and mode and the transition report are those of the step function; rejected events change nothing |
| RingBuffers.RingBuffer.Write | windows/audio-service/include/smartmic/ring_buffer.h:40-60 | the queue becomes the newest `capacity` items of old ++ src, and the result is the exact number lost, writes larger than the ring included |
| RingBuffers.RingBuffer.Read | windows/audio-service/include/smartmic/ring_buffer.h:65-74 | returns the oldest items in order, removes exactly those and counts the shortfall |
| RingBuffers.RingBuffer.ReadOrSilence | windows/audio-service/include/smartmic/ring_buffer.h:78-82 | always the requested length: real items, then silence |
| RingBuffers.RingBuffer.Clear | windows/audio-service/include/smartmic/ring_buffer.h:84-86 | empties the queue |
| RingBuffers.RingBuffer.RoundUpPow2 | windows/audio-service/include/smartmic/ring_buffer.h:89-93 | the smallest power of two that is at least the argument |
| RingBuffers.RingBuffer.CopyIn | windows/audio-service/include/smartmic/ring_buffer.h:95-100 | two block copies through the mask put the items at consecutive ring positions and change no other slot |
| RingBuffers.RingBuffer.CopyOut | windows/audio-service/include/smartmic/ring_buffer.h:102-107 | two block copies through the mask return the items at consecutive ring positions |
| RingBuffers.NothingInvented | windows/audio-service/include/smartmic/ring_buffer.h:36-74 | over every run deliveries come from strictly increasing positions of the input, and offered = delivered + lost + queued |
| Slots.MaskIsMod | windows/audio-service/include/smartmic/ring_buffer.h:96 | masking by a power of two less one is the remainder |
| Slots.WindowAfterPut | windows/audio-service/include/smartmic/ring_buffer.h:95-107 | writing behind a window extends it and leaves what was in it |
| SpscRing.EveryInterleavingIsSafe | windows/audio-service/include/smartmic/ring_buffer.h:40-74 | in every interleaving of single loads, element copies and stores in which a write fits the free space it saw, what is read is a prefix of what was written and no slot is copied in and out at once |
| SpscRing.StepKeeps | windows/audio-service/include/smartmic/ring_buffer.h:40-107 | every single step keeps the invariant behind that safety |
| SpscDrops.SafeDropsDeliverInOrder | windows/audio-service/include/smartmic/ring_buffer.h:40-74 | in every interleaving whose drop stores do not pass the next item the reader copies, nor take an idle reader's index back, deliveries come from strictly increasing positions of the input |
| SpscDrops.StepKeepsDrops | windows/audio-service/include/smartmic/ring_buffer.h:40-107 | every single step with a safe drop keeps the invariant behind that |
| SpscDrops.UnsafeDropBreaks | windows/audio-service/include/smartmic/ring_buffer.h:51-55 | wherever any other drop store comes next, some continuation to where both ends are idle returns one item twice, so deliveries are in no order a picking from the input |
| SpscDrops.DropOldestIsNotConcurrent | windows/audio-service/include/smartmic/ring_buffer.h:51-55 | at every capacity such a store is reached from the empty ring, with both ends idle at the end |
| RouterModel.ApplyAllLast | windows/audio-service/src/router.cpp:97-102 | draining a longer queue applies its last event last |
| RouterRuns.ApplyKeepsAim | windows/audio-service/src/router.cpp:104-147 | after any event the fade aims at 1 exactly in the phone states (error recovery aside) and the gate at 0 exactly in the silent ones |
| RouterRuns.DecidedKeeps | windows/audio-service/src/router.cpp:97-173 | after draining and timers no expired arming or live state remains, and recovery is entered here exactly by an arming timeout |
| RouterRuns.SourcesKeep | windows/audio-service/src/router.cpp:175-196 | reading the sources changes nothing unless one that is read fails, and then leads to error recovery |
| RouterRuns.FailureKeepsFade | windows/audio-service/src/router.cpp:117-196 | a failing source and an arming timeout close the gate and leave the crossfade on its course |
| RouterRuns.TickKeeps | windows/audio-service/src/router.cpp:74-95 | after a tick: live only with a recent heartbeat, arming only within its timeout, returning only while fading, and error recovery exactly when this tick's arming expired or a source failed |
| RouterTimes.UnansweredPressRecovers | windows/audio-service/src/router.cpp:149-173 | from the start a press that nothing answers arms for armTimeoutMs / 20 frames exactly, one at least, is in error recovery after one more tick and local after the next |
| RouterRuns.EveryRunSettles | windows/audio-service/src/router.cpp:43-173 | the same after every run of control calls and ticks |
| RouterTimes.ReleaseFadesOut | windows/audio-service/src/router.cpp:104-173 | a released phone is faded out for exactly the frames that its part of the crossfade needs, and the router is local with the crossfade at rest neither earlier nor later |
| RouterTimes.PressArmsInTime | windows/audio-service/src/router.cpp:141-173 | wherever a press finds the router local or returning, unanswered it arms for armTimeoutMs / 20 frames, one at least, beyond the first, then recovers for one and is local |
| RouterRuns.BoundedFailback | windows/audio-service/src/router.cpp:74-173 | from any reachable state, with no further calls and no failing source, the router is in its mode's resting state after one draining tick and armTimeoutMs / 20 + 2 further ones, or those of phoneLostTimeoutMs / 20 + 1 and of the crossfade at 48 samples a millisecond if these are more, and stays there |
| RouterRuns.CalmTickApproaches | windows/audio-service/src/router.cpp:149-173 | each quiet tick brings the router one tick closer to the local microphone |
| RouterRuns.DistanceBounds | windows/audio-service/src/router.cpp:149-173 | that distance never exceeds the failback bound |
| RouterRuns.PhoneDecidesNothing | windows/audio-service/src/router.cpp:175-196 | the phone's samples never influence a decision |
| RouterRuns.QuietRunFades | windows/audio-service/src/router.cpp:91-93 | quiet ticks finish the fade away from the phone |
| RouterRuns.OutlastedFadeIsInaudible | windows/audio-service/src/router.cpp:175-210 | once a non-phone state has outlasted the fade, two runs that differ only in phone samples produce the same frame |
| RouterRuns.ClosedGateIsSilent | windows/audio-service/src/router.cpp:117-119 | with the gate closed the frame is silence whatever the sources deliver |
| RouterRuns.GainsNeverJump | windows/audio-service/src/router.cpp:104-147 | whatever is decided, both ramps, crossfade and gate, enter the frame where the last one left them, and each of its samples moves them by at most one part in 48 crossfadeMs samples |
| SampleContinuity.FramesIff | windows/audio-service/src/router.cpp:97-196 | in every settled state what a source delivers is in the frame exactly when, judged before the tick, the gate will move or the state that the waiting events and timers lead to wants that source, for the phone with no local failure first; otherwise there is silence in its place |
| SampleContinuity.ContinuousIff | windows/audio-service/src/router.cpp:97-210 | every source that the crossfade lets through is in the frame, whatever it delivers, exactly when that holds of the phone off the local end and of the local microphone off the phone end |
| SampleContinuity.ReadingStateIs | windows/audio-service/src/router.cpp:97-173 | that state computed from the state machine alone is the one the sources are read in |
| SampleContinuity.OneEventCuts | windows/audio-service/src/router.cpp:193-195 | with the gate open and still and nothing waiting the phone is never cut; a single waiting event cuts it exactly when it is LocalOnly, Auto, or a press during the fade back |
| SampleContinuity.OneEventCutsLocal | windows/audio-service/src/source_state_machine.cpp:107-118 | with the gate still, the one postable event that alone cuts a wanted local microphone is PhoneOnly, in either direction |
| SampleContinuity.LeavingPhoneCutsSamples | windows/audio-service/src/router.cpp:193-195 | choosing LocalOnly while live silences the phone's samples in that frame although the crossfade has not moved |
| SampleContinuity.CuttingRunCuts | windows/audio-service/src/router.cpp:43-210 | in every configuration press, frame, acknowledgement, frame and LocalOnly from the start reach a frame that drops the phone while the crossfade is off the local end, the frame before having carried it |
| SampleContinuity.LocalCutRun | windows/audio-service/src/router.cpp:97-196 | a frame and PhoneOnly from the start cut the local microphone at full local gain, in every configuration |
| RouterOutput.LocalIsHeard | windows/audio-service/src/router.cpp:198-210 | at the local end of the crossfade with the gate open, sample i is the local microphone's times its gain, cut at 0.999 on either side |
| RouterOutput.PhoneIsHeard | windows/audio-service/src/router.cpp:198-210 | at the phone end it is the phone's times its gain, cut likewise |
| RouterOutput.SourcesAdd | windows/audio-service/src/router.cpp:198-210 | at every position of both ramps the sample of both sources is the sum, cut, of the samples of each alone |
| RouterOutput.NeverBeyondCeiling | windows/audio-service/src/router.cpp:198-210 | every sample that leaves the router is at most 0.999 of full scale |
| RouterOutput.CrossfadeKeepsPower | windows/audio-service/src/crossfade.cpp:36-44 | in between, the samples that the same audio gives on either side alone add up, squared, to its square |
| RouterOutput.GateScales | windows/audio-service/src/crossfade.cpp:67-76 | a moving gate scales the open gate's sample by its curve at that sample |
| RouterOutput.LastSampleMeetsNextFrame | windows/audio-service/src/router.cpp:198-210 | a frame's last sample is heard under the crossfade that the next frame starts from |
| RouterOutput.ModeIsHeard | windows/audio-service/src/router.cpp:43-210 | after any run, once a mode is selected and its frames cover the crossfade, what is heard is that mode's source alone, and nothing when muted |
| RouterOutput.LocalIsHeardFromTheStart | windows/audio-service/src/router.cpp:74-210 | from the start, with no calls and no failing source, every frame is the local microphone's |
| RouterLiveness.LiveExactlyWhileHeard | windows/audio-service/src/router.cpp:52-68 | a live phone stays live through presses, acknowledgements, heartbeats and frames exactly as long as no frame comes more than phoneLostTimeoutMs / 20 frames, one at least, after the last of these |
| RouterLiveness.LivePhoneIsHeard | windows/audio-service/src/router.cpp:74-210 | and once its frames cover the crossfade, every sample is the phone's |
| RouterLiveness.LiveIffHeardInTime | windows/audio-service/src/router.cpp:149-173 | with heartbeats and frames alone it is live at the end exactly when every frame came in time, and once dropped on the way back to the local microphone for good |
| RouterLiveness.ArmingExactlyInTime | windows/audio-service/src/router.cpp:149-173 | a press that nothing answers stays arming for armTimeoutMs / 20 frames, one at least, whatever heartbeats come, and no longer |
| RouterLiveness.LetGo | windows/audio-service/src/router.cpp:58-70 | a release or the loss of the phone ends arming and live in the next frame, in every state and whatever waits before it |
| RouterLiveness.NewestWait | windows/audio-service/src/router.cpp:37-70 | between frames the newest 256 events wait, in order |
| Routers.AudioRouter.Tick | windows/audio-service/src/router.cpp:74-95 | one tick's new state and output frame are those of the specification; a refusing sink changes neither |
| Routers.AudioRouter.DrainEvents | windows/audio-service/src/router.cpp:97-102 | the loop applies every waiting event in order and leaves none |
| Routers.AudioRouter.ApplyEvent | windows/audio-service/src/router.cpp:104-147 | state machine, ramps and arming stamp change together as specified |
| Routers.AudioRouter.Enter | windows/audio-service/src/router.cpp:117-146 | a changed state retargets gate and fade; error recovery leaves the fade where it is |
| Routers.AudioRouter.UpdateTimers | windows/audio-service/src/router.cpp:149-173 | recovery, arming timeout and loss of the phone in that order, at most one per tick |
| Routers.AudioRouter.Fill | windows/audio-service/src/router.cpp:176-188 | one source is read, zero-filled or failed into its own buffer |
| Routers.AudioRouter.ReadSources | windows/audio-service/src/router.cpp:175-196 | both buffers hold what the state wants, or what the moving gate still needs |
| Routers.AudioRouter.MixAndWrite | windows/audio-service/src/router.cpp:198-210 | every one of the 960 samples is the limited mix under ramps that are i+1 samples further on |
| Routers.AudioRouter.MixOne | windows/audio-service/src/router.cpp:200-208 | one turn of the mixing loop writes one sample and advances both ramps once |
| Routers.AudioRouter.Post | windows/audio-service/src/router.cpp:37-40 | the event joins the ring; a full ring forgets its oldest event |
| Routers.AudioRouter.SetMode | windows/audio-service/src/router.cpp:43-50 | posts the event of the mode |
| Routers.AudioRouter.StartPtt | windows/audio-service/src/router.cpp:52-57 | counts the request as liveness and posts it |
| Routers.AudioRouter.NotifyPhoneReady | windows/audio-service/src/router.cpp:61-64 | counts the acknowledgement as liveness and posts it |
| Routers.AudioRouter.NotifyPhoneHeartbeat | windows/audio-service/src/router.cpp:66-68 | moves the liveness stamp to the current frame and nothing else |
| DriverRings.GuardMeaning | windows/audio-service/platform/windows/smartmic_driver_link.cpp:265-275 | the wrapping guard admits a write exactly when the reader lies between the new end and a full ring before it |
| DriverRings.EveryRunFaithful | windows/driver/ring.cpp:206-270 | for every run of writes, reads and reopens with honest writes, each real frame delivered for index i is the i-th frame published, indices strictly increase and the reader is never lapped |
| DriverRings.ReadReturnsPublished | windows/driver/ring.cpp:206-258 | a read returns the published frames under the indices it records, then silence, exactly as many as asked |
| DriverRings.StarveBoundary | windows/driver/ring.cpp:245-255 | after a starve of k frames a write of n is published iff n >= k, and then leaves n - k readable |
| DriverRings.StarvedForGood | windows/audio-service/platform/windows/smartmic_driver_link.cpp:265-275 | if the reader is further ahead than any write is long, every later write is refused while the stream is not reopened |
| DriverRings.StarveIsReachable | windows/driver/ring.cpp:206-258 | from the empty ring one write and one read of more than twice its length, both honest, lead to where no later write of that length gets in |
| DriverRings.ReopenRecovers | windows/driver/ring.cpp:260-270 | opening the stream recovers at once |
| DriverRings.SharedSection.Write | windows/audio-service/platform/windows/smartmic_driver_link.cpp:254-291 | the conversion loop, guard, block copies and index store publish the limited PCM16 frames or refuse them as a whole; only writes longer than the ring that the guard nevertheless admits are excluded |
| DriverRings.SharedSection.Read | windows/driver/ring.cpp:184-258 | for any indices whatever the copies stay in the payload and yield the real prefix and then silence, and the indices move past the whole request |
| DriverRings.SharedSection.SetStreamOpen | windows/driver/ring.cpp:260-270 | opening moves the reader to the writer; closing moves nothing |
| DriverAudio.PcmIsNearest | windows/audio-service/platform/windows/smartmic_driver_link.cpp:257-263 | a published sample is within one half of 32767 times its input, and 32734 on its side beyond 0.999 |
| DriverAudio.PcmIsOdd | windows/audio-service/platform/windows/smartmic_driver_link.cpp:257-263 | the conversion treats both sides alike |
| DriverAudio.PcmIsMonotone | windows/audio-service/platform/windows/smartmic_driver_link.cpp:257-263 | and keeps the order |
| DriverAudio.ReadSoundsAsWritten | windows/driver/ring.cpp:184-258 | in every honest run a live read returns, in its place, the audio of the writes that were admitted, each sample so converted, and then silence |
| DriverAudio.LappedReaderSkips | windows/driver/ring.cpp:206-226 | a reader that was lapped gets the newest 8192 frames and is up to date |
| DriverAudio.WriteIsASignOfLife | windows/driver/ring.cpp:168-182 | after any write, a refused one too, the producer is alive for 250 ms of the 100 ns clock and no longer |
| DriverAudio.SilentWhenGone | windows/driver/ring.cpp:195-204 | a producer that is not alive is heard as silence, and the ring stays as it was |
| JitterBuffers.EveryRunConserves | shared/media/src/jitter_buffer.cpp:46-119 | in every run queued keys are less than 2^31 ahead, the queue is bounded by maxMs/20+4, and pushed = popped + duplicate + late + overflow + queued |
| JitterBuffers.TargetStaysInBounds | shared/media/src/jitter_buffer.cpp:25-44 | for any arrival times the adaptive target stays within its bounds if it starts there |
| JitterBuffers.EstimateMoves | shared/media/src/jitter_buffer.cpp:25-33 | the estimate is a running mean: a sixteenth of it is the newest deviation from 20 ms, and it never leaves the range between the two |
| JitterBuffers.TargetFollows | shared/media/src/jitter_buffer.cpp:35-44 | after an arrival the target covers the minimum and three times the estimate, or is at the maximum; it rises no further than that, and falls by 20 ms at a time, always when it is more than that too high |
| JitterBuffers.TargetIsFixed | shared/media/src/jitter_buffer.cpp:35 | without adaption the target stays |
| JitterBuffers.EvenArrivalsNarrow | shared/media/src/jitter_buffer.cpp:25-44 | n packets 20 ms apart bring a raised target down by 20 n ms, to within a frame of the minimum |
| JitterBuffers.TargetDecidesNothing | shared/media/src/jitter_buffer.cpp:46-119 | whatever the target is and whenever the packets come, the same calls leave the same queue and play the same |
| JitterBuffers.BeforeTheFirstPacket | shared/media/src/jitter_buffer.cpp:46-99 | before the first packet there is silence and no readiness, and that packet is the next to play |
| JitterBuffers.PopIsCounted | shared/media/src/jitter_buffer.cpp:94-119 | every frame asked of a started buffer is counted as played, and leaves the queue, or as concealed |
| JitterBuffers.PushIsCounted | shared/media/src/jitter_buffer.cpp:46-79 | every packet is counted as late, as duplicate or is taken in, then as reordered exactly behind a larger number and with an overflow exactly at maxMs / 20 + 4 entries |
| JitterBuffers.DrainStep | shared/media/src/jitter_buffer.cpp:101-118 | n pops without pushes leave exactly the entries at least n ahead |
| JitterBuffers.PlaysInSerialOrder | shared/media/src/jitter_buffer.cpp:94-119 | pops without pushes yield exactly the queued payloads at their serial distances, with concealment in the gaps and after the last |
| JitterBuffers.PlayoutIsOrdered | shared/media/src/jitter_buffer.cpp:46-119 | within a reset epoch, over any number of wraps, played positions strictly increase and each payload was pushed under its position's key |
| JitterBuffers.OverflowDropsOldestIff | shared/media/src/jitter_buffer.cpp:68-73 | overflow drops the serially oldest entry exactly when the queue does not straddle the wrap |
| JitterBuffers.OverflowKeepsTheOldest | shared/media/src/jitter_buffer.cpp:46-79 | in every configuration a run of pushes across the wrap overflows, drops key 0 and keeps the serially oldest, 2^32-1 |
| JitterBuffers.JitterBuffer.Push | shared/media/src/jitter_buffer.cpp:46-79 | late, duplicate and overflow branches, the reordered count, the insertion and every counter as specified |
| JitterBuffers.JitterBuffer.AdaptTo | shared/media/src/jitter_buffer.cpp:25-44 | the estimate moves by a sixteenth of the deviation and the target rises at once but falls one frame at a time |
| JitterBuffers.JitterBuffer.FirstKey | shared/media/src/jitter_buffer.cpp:71 | the loop finds the smallest raw key |
| JitterBuffers.JitterBuffer.Pop | shared/media/src/jitter_buffer.cpp:94-119 | a wrong sample count changes nothing; otherwise plays, conceals and skips, or conceals and holds, exactly as specified, and reports whether the decoder produced sound |
| JitterBuffers.JitterBuffer.IsReady | shared/media/src/jitter_buffer.cpp:81-83 | a started buffer is ready exactly when what it can still play without another arrival lasts at least the prefill |
| JitterBuffers.ReadyIff | shared/media/src/jitter_buffer.cpp:81-119 | a started buffer that gets no more packets plays as many as are queued, however many pops that takes, so its length measures what is left to hear |
| PhoneMedia.PackedAt | shared/media/src/phone_media_source.cpp:95-115 | a spurt's packets carry consecutive numbers on the 32-bit circle and only the first after a reset is marked |
| PhoneMedia.MediaIsCounted | shared/media/src/phone_media_source.cpp:35-55 | what is malformed or empty is counted and never reaches the buffer; everything else is pushed, into an empty buffer if marked |
| PhoneMedia.SpurtPlaysInOrder | shared/media/src/phone_media_source.cpp:35-75 | for a spurt of up to 2^31 packets, played while it arrives with any loss, repetition and reordering after the marked one and with unmarked packets of earlier spurts straggling in, the frame played at position p is packet p, positions strictly increase, and without overflow exactly the packets that arrived before their turn are played |
| PhoneMedia.SpurtAtTheSource | shared/media/src/phone_media_source.cpp:35-115 | that is the buffer of a source fed with the sender's packets, whatever it held before |
| PhoneMedia.SpurtReceived | shared/media/src/phone_media_source.cpp:35-55 | when a spurt fits the buffer and arrives before it is played, the buffer then holds exactly what arrived, whatever it held before |
| PhoneMedia.SpurtPlayed | shared/media/src/phone_media_source.cpp:67-75 | playing such a spurt returns frame i if packet i arrived and conceals it otherwise |
| PhoneMedia.MediaSender.PackFrame | shared/media/src/phone_media_source.cpp:95-115 | numbers and stamps the encoded frame and clears the marker; a failing encoder sends nothing and changes nothing |
| PhoneMedia.PhoneMediaSource.OnMediaPayload | shared/media/src/phone_media_source.cpp:35-55 | malformed and empty payloads are counted and dropped; a marker resets the buffer before the push |
| PhoneMedia.PhoneMediaSource.Read | shared/media/src/phone_media_source.cpp:67-75 | a stopped source fails with silence; otherwise one pop decides, and the read succeeds exactly when it produced sound |
| Resamplers.CountMeaning | windows/audio-service/src/resampler.cpp:34-45 | an output exists exactly when the right neighbour of its position has arrived |
| Resamplers.OutputIsStable | windows/audio-service/src/resampler.cpp:34-48 | output already produced is never revised by more input |
| Resamplers.BlocksDoNotMatter | windows/audio-service/src/resampler.cpp:23-49 | splitting the input into any blocks gives the output of one call |
| Resamplers.BlockWithinEstimate | windows/audio-service/src/resampler.cpp:18-21 | a block produces fewer samples than estimateOutput promises |
| Resamplers.EstimateIsTight | windows/audio-service/src/resampler.cpp:18-21 | the estimate is between one and two above the quotient |
| Resamplers.SecondsOfOutput | windows/audio-service/src/resampler.cpp:9-45 | each second of input, whatever its rate, makes 48000 outputs |
| Resamplers.BlockYieldsAt | windows/audio-service/src/resampler.cpp:37-45 | each output a block adds interpolates its two neighbours, position -1 being the previous block's last sample |
| Resamplers.LinearResampler.ReadBlock | windows/audio-service/src/resampler.cpp:33-45 | the loop ends, yields exactly the formula's next outputs and never uses the unprimed fallback |
| Resamplers.LinearResampler.Process | windows/audio-service/src/resampler.cpp:23-49 | appends what the block adds to the stateless output and carries phase and last sample |
| Resamplers.LinearResampler.EstimateOutput | windows/audio-service/src/resampler.cpp:18-21 | exceeds what that many further samples produce anywhere in any stream, and by less than two above the quotient; equals them when passing through |
| Resamplers.LinearResampler.Reset | windows/audio-service/src/resampler.cpp:9-16 | an empty stream; rate 0 and 48000 pass through |
| ReplayWindows.ReplayWindow.Accept | shared/protocol/include/smartmic/protocol/replay_window.h:19-44 | for any width the shifting bit set accepts exactly what is fresh in the set model and records it |
| ReplayWindows.ReplayWindow.Reset | shared/protocol/include/smartmic/protocol/replay_window.h:48 | forgets every number |
| ReplayWindows.FreshByCases | shared/protocol/include/smartmic/protocol/replay_window.h:27-43 | fresh means above the highest, or within the window of it and not seen |
| ReplayWindows.NeverTwice | shared/protocol/include/smartmic/protocol/replay_window.h:17-18 | no number is accepted twice in any run since a reset |
| ReplayWindows.FirstArrivalAccepted | shared/protocol/include/smartmic/protocol/replay_window.h:27-43 | a first arrival less than the width behind everything so far is always accepted |
| SecureChannels.SecureChannel.Init | shared/media/src/secure_channel.cpp:35-54 | a fresh epoch: counter zero, empty window, subkeys by direction |
| SecureChannels.SecureChannel.Seal | shared/media/src/secure_channel.cpp:56-72 | seals under the next number, and so under no number twice until the next Init |
| SecureChannels.SecureChannel.Open | shared/media/src/secure_channel.cpp:74-104 | opens exactly authentic boxes with a fresh number; a forgery or replay leaves the window as it was |
| SecureChannels.OwnIsRefused | shared/media/src/secure_channel.cpp:35-54 | the directions share no subkey: no end opens what was sealed in its own direction, under any key |
| PeerSessionModel.EndsAreLabelled | shared/media/src/secure_channel.cpp:35-54 | the phone seals under the labels 1 and 11, the PC under 2 and 12 |
| SecureChannels.PeerOpens | shared/media/src/secure_channel.cpp:35-104 | what the other end of the session seals opens exactly when its number is fresh within 1024 |
| LossyDelivery.EveryScheduleDeliversOnce | shared/media/src/secure_channel.cpp:56-104 | in an epoch that both ends begin together, for every schedule of seals and arrivals each delivery is what was sealed under its number and no number is delivered twice |
| LossyDelivery.ArrivalVerdict | shared/media/src/secure_channel.cpp:95-100 | a sealed datagram is delivered on arrival exactly when it was not before and is fewer than 1024 behind; otherwise nothing changes |
| LossyDelivery.ImpairPassesOffered | shared/media/src/chaos_transport.cpp:16-54 | the impairing transport passes on only packets it was offered |
| LossyDelivery.NothingIsLostWithoutALoss | shared/media/src/chaos_transport.cpp:16-54 | kind dice pass everything on, at once and in order |
| LossyDelivery.DuplicatedComesTwice | shared/media/src/chaos_transport.cpp:49-54 | a duplicated packet comes twice, at once |
| LossyDelivery.ALossIsABurst | shared/media/src/chaos_transport.cpp:22-33 | a loss takes exactly burstLossLength packets in a row, one at least, whatever the dice |
| LossyDelivery.ReorderedComeReversed | shared/media/src/chaos_transport.cpp:37-47 | reordered packets are held until there are reorderDepth of them and then come in reverse |
| LossyDelivery.ChaosDeliversOnce | shared/media/src/chaos_transport.cpp:16-54 | over that transport, whatever the dice, delivery is at most once |
| SessionDelivery.EveryCallbackGenuineAndOnce | shared/session/src/peer_session.cpp:225-256 | in every run of an epoch that both ends begin together each callback carries what the peer sealed, none is made twice for a datagram and no control number is acted on twice |
| SessionDelivery.FirstArrivalServed | shared/session/src/peer_session.cpp:236-253 | in such an epoch a first arrival in the window is served: media always, control exactly when its number is new within 512 |
| SessionDelivery.OvertakenControlIsLost | shared/session/src/peer_session.cpp:236-253 | from a fresh epoch, when the 513th control message overtakes the first, the first opens but is not served, and as media it would be |
| SessionDelivery.NewEpochIff | shared/session/src/peer_session.cpp:181-213 | a pairing message starts a new epoch exactly when it carries the peer's signature of the exchange in hand, and a copy of it does so again under the same key |
| SessionEpochs.EveryEpochGenuineAndOnce | shared/session/src/peer_session.cpp:98-257 | at one end, for any pairing messages arriving any number of times and a peer that has sealed anything in any number of epochs: since its last start every callback carries what the peer sealed under that number, none is made twice for a number or a control number, and it seals each number once |
| SessionEpochs.ServedIff | shared/session/src/peer_session.cpp:225-257 | a datagram of any of the peer's epochs is served exactly when it was sealed under the key in force and its number is fresh in the window, a control message when its own number is fresh as well |
| SessionEpochs.RestartedPeerWaits | shared/session/src/peer_session.cpp:225-257 | an end that has accepted the numbers below k serves a restarted peer's datagram exactly when it is numbered k or later |
| SessionEpochs.ReflectedIsIgnored | shared/session/src/peer_session.cpp:225-257 | an end's own datagrams, of any epoch and key, may come back and change nothing |
| SessionEpochs.CopiedProofDeliversAgain | shared/session/src/peer_session.cpp:181-200 | in a run from the start a copy of PAIR3 makes the responder deliver its peer's one datagram a second time |
| SessionEpochs.CopiedProofReusesNumber | shared/session/src/peer_session.cpp:202-213 | in a run from the start a copy of PAIR4 makes the initiator seal two plaintexts under one key and number |
| PeerSessions.PeerSession.HandlePairing | shared/session/src/peer_session.cpp:110-223 | every pairing message in every state has the specified effect on session, offer book and channel, and the specified replies |
| PeerSessions.PeerSession.HandlePair1 | shared/session/src/peer_session.cpp:118-162 | wrong session, refused offer, unreadable hello, retried hello and new exchange |
| PeerSessions.PeerSession.HandlePair2 | shared/session/src/peer_session.cpp:164-179 | a failed element fails the session; otherwise the signature is sent |
| PeerSessions.PeerSession.HandlePair3 | shared/session/src/peer_session.cpp:181-200 | a wrong signature is charged to the offer and fails; a right one is answered and establishes |
| PeerSessions.PeerSession.HandlePair4 | shared/session/src/peer_session.cpp:202-213 | a wrong signature fails; a right one establishes |
| PeerSessions.PeerSession.EstablishChannel | shared/session/src/peer_session.cpp:98-108 | a fresh channel epoch for the exchange's key, cleared control window, consumed offer, forgotten code |
| PeerSessions.PeerSession.BeginPairing | shared/session/src/peer_session.cpp:71-84 | a new exchange and its hello |
| PeerSessions.PeerSession.ArmPairing | shared/session/src/peer_session.cpp:62-69 | the session waits for the given code and forgets its exchange |
| PeerSessions.PeerSession.ResendPairingHello | shared/session/src/peer_session.cpp:86-89 | the same hello again, only while pairing |
| PeerSessions.PeerSession.OnSealed | shared/session/src/peer_session.cpp:231-257 | nothing is served outside an authenticated session, and inside one only what opens, decodes and has a new number |
| PeerSessions.PeerSession.SendControl | shared/session/src/peer_session.cpp:259-265 | sealed under the session's key and direction, only when authenticated |
| PeerSessions.PeerSession.SendMedia | shared/session/src/peer_session.cpp:267-272 | sealed under the session's key and direction, only when authenticated |
| Encoding.EncodeInjective | shared/security/src/pairing.cpp:16-21 | no two lists of fields shorter than 2^32 bytes serialise to the same bytes |
| Encoding.LimitIsTight | shared/security/src/pairing.cpp:16-21 | at 2^32 bytes the length prefix wraps and two different lists do |
| Encoding.AppendLengthPrefixed | shared/security/src/pairing.cpp:16-21 | the loop appends one field, and so extends any encoding by that field |
| Pairing.TranscriptInjective | shared/security/src/pairing.cpp:84-99 | equal transcripts name the same session, keys and shares |
| Pairing.SeedInjective | shared/security/src/pairing.cpp:60-68 | equal generator seeds mean the same code and session |
| Pairing.SeedIsNoTranscript | shared/security/src/pairing.cpp:11-12 | with fields under 2^32 bytes, what is hashed to a generator is never what is hashed as a transcript |
| Pairing.SeedBegins | shared/security/src/pairing.cpp:11 | a seed begins with its label behind the four bytes of its length |
| Pairing.TranscriptBegins | shared/security/src/pairing.cpp:90-93 | a transcript begins with its label and version 1, each behind the four bytes of its length |
| Pairing.KeysAgree | shared/security/src/pairing.cpp:101-137 | two derived exchanges that meant each other have one transcript, and the same key exactly when they used the same generator |
| Pairing.LawfulGroupExists | shared/security/src/pairing.cpp:70-82 | the group laws assumed can be met by a group with distinguishable scalars |
| Pairing.ReceiveSound | shared/security/src/pairing.cpp:101-137 | receiving a peer succeeds exactly once and for usable elements, and then holds the key for both shares |
| Pairing.RefusedBecause | shared/security/src/pairing.cpp:101-137 | which refusal, exactly, and that a refused hello derives nothing |
| Pairing.PairingExchange.OnPeer | shared/security/src/pairing.cpp:101-137 | repeated use, the identity, invalid elements and a failed multiplication are refused in that order; otherwise transcript and key are set |
| Pairing.PairingExchange.BuildTranscript | shared/security/src/pairing.cpp:84-99 | seven appended fields, ordered by role, are the encoding both sides agree on |
| Pairing.PairingExchange.AuthSignature | shared/security/src/pairing.cpp:149-153 | signs transcript and key, or nothing before the key is derived |
| Pairing.PairingExchange.VerifyPeerAuth | shared/security/src/pairing.cpp:155-160 | accepts exactly the peer's signature over this transcript and key |
| PairingAgreement.Agreement | shared/session/src/peer_session.cpp:98-213 | under any loss, duplication, reordering and reflection, with either side armed or begun again at any time, if both are authenticated their keys are equal and their directions complementary |
| PairingAttempts.DifferentCodesNeverPair | shared/session/src/peer_session.cpp:110-213 | if the initiator is authenticated, then at some moment since it last began the responder was armed with the generator it began with; if the responder is, then at some moment since it was last armed the initiator had begun with its generator; if both are, the two are equal now |
| PairingAttempts.WrongCodeNeverPairs | shared/session/src/peer_session.cpp:62-213 | unless hashing to the group collides, the same of sessions and codes: no attempt succeeds with a code that was not in force on the other side at some moment of that attempt, whatever was armed, begun or paired before it |
| PairingAttempts.EveryRunCurrent | shared/session/src/peer_session.cpp:62-223 | in every run the exchange in hand belongs to the latest beginning or arming, and an authenticated responder has met a signature of the very exchange it holds |
| PairingAttempts.EveryRunTimely | shared/session/src/peer_session.cpp:62-223 | in every run the generator the initiator holds, once the responder has met its signature, was armed at a moment since the initiator last began, and that of every signature for the exchange the responder holds was begun with at a moment since the responder was last armed |
| PairingAgreement.EveryRunKeeps | shared/session/src/peer_session.cpp:62-223 | the invariant relating signatures, establishments, shares and messages holds after every run |
| PairingAgreement.VerifiedWasSigned | shared/session/src/peer_session.cpp:181-200 | a signature the responder accepts was made by the initiator for this very exchange, and only once |
| PairingAgreement.AuthIsUnique | shared/security/src/pairing.cpp:84-99 | what a signature covers identifies the exchange it was made for |
| PairingStates.StateAfterMessage | shared/session/src/peer_session.cpp:110-223 | the right signature alone authenticates; a reported error, a wrong signature, a refused offer and an unusable share end the pairing; nothing else changes the state |
| PairingStates.ErrorEndsPairing | shared/session/src/peer_session.cpp:215-220 | a peer that reports an error ends the pairing in every state, an authenticated session included, at no charge |
| PairingStates.ChargedExactly | shared/session/src/peer_session.cpp:118-200 | an attempt is charged exactly for an unusable share and for a wrong signature, to a responder |
| PairingStates.CountedOnce | shared/session/src/peer_session.cpp:110-223 | every message is counted at most once: as rejected, and then changes nothing else, or as a failure, exactly for errors, wrong signatures and unusable shares |
| PairingStates.RejectedExactly | shared/session/src/peer_session.cpp:110-223 | rejected are exactly the unreadable, those of the other role or another session, and those without an exchange |
| PairingStates.RepliesExactly | shared/session/src/peer_session.cpp:118-200 | a responder answers a greeting with its hello, the same to the same peer, what fails with an error and the right signature with its own |
| PairingStates.InitiatorReplies | shared/session/src/peer_session.cpp:164-213 | an initiator answers a usable hello with its signature and nothing else with anything |
| PairingStates.HelloIsRepeated | shared/session/src/peer_session.cpp:71-89 | the hello of a beginning is sent again, the same, until the pairing ends, and then not |
| PairingStates.StartsOver | shared/session/src/peer_session.cpp:62-84 | arming and beginning start over, whatever came before |
| PairingCompletes.SameCodePairs | shared/session/src/peer_session.cpp:62-213 | with the same code for the same session, no loss and shares not drawn before, the handshake authenticates both sides |
| PairingOffers.GuessesAreBounded | shared/security/src/pairing.cpp:215-232 | between two issues at most maxAttempts codes are ever compared by the book itself |
| PairingBudget.GuessesArePaidFor | shared/session/src/peer_session.cpp:118-200 | for arbitrary messages and any re-arming without a new offer, at most the attempts left of different exchanges fail |
| PairingBudget.JudgedAgain | shared/session/src/peer_session.cpp:181-200 | one exchange may be judged wrong any number of times, all charged, and a right signature still establishes it |
| PairingBudget.DeadOfferStartsNothing | shared/session/src/peer_session.cpp:118-162 | with a consumed or expired offer no messages and no re-arming start an exchange |
| PairingBudget.OfferPairsOnce | shared/session/src/peer_session.cpp:98-108 | once any messages have authenticated the responder, its offer is used up, and no others and no re-arming without a new one start an exchange |
| PairingOffers.NeverRevived | shared/security/src/pairing.cpp:234-248 | an offer that is not valid never becomes valid again without a new issue |
| PairingOffers.ValidExactly | shared/security/src/pairing.cpp:215-248 | after any calls without a new issue, an offer is good exactly for its own session, until it is consumed, withdrawn, expired or its attempts are spent |
| PairingOffers.RefusedBecause | shared/security/src/pairing.cpp:234-241 | and refused as consumed or as expired exactly when that is the first reason |
| PairingOffers.UsedOnce | shared/security/src/pairing.cpp:247-248 | once consumed, no run without an issue makes it valid |
| PairingOffers.ExpiredForGood | shared/security/src/pairing.cpp:234-241 | nor at its expiry or later |
| PairingOffers.CodeAcceptedIff | shared/security/src/pairing.cpp:215-232 | a presented code is accepted exactly when the offer is valid and the code its own, and paid for exactly when it was compared |
| PairingOffers.PairingOfferBook.Verify | shared/security/src/pairing.cpp:215-232 | the checks in order, the attempt counted before the comparison, and the verdict, whose meaning over runs is ValidExactly and CodeAcceptedIff |
| PairingOffers.PairingOfferBook.Check | shared/security/src/pairing.cpp:234-241 | the same verdict without counting, whose meaning over runs is ValidExactly and RefusedBecause |
| PairingUris.LinkRoundTrip | shared/security/src/pairing.cpp:200-209 | parsing a built link returns the offer exactly when it fits in the buffer or only a zero expiry is cut; otherwise it is refused or its expiry alone is earlier |
| PairingUris.CutAfterCode | shared/security/src/pairing.cpp:252-283 | a link cut after the code differs at most in the expiry |
| PairingUris.CutBeforeCodeEnds | shared/security/src/pairing.cpp:252-283 | a link cut within or before the code has no six-character code |
| PairingUris.CollectedAppend | shared/security/src/pairing.cpp:259-276 | a further piece is applied to what the pieces before it gave |
| PairingUris.AcceptedIsUsable | shared/security/src/pairing.cpp:252-283 | whatever text is parsed, a link is accepted only with its scheme, version 1, a six character code, a port, and a host, session and device that are there |
| PairingUris.RefusedLacks | shared/security/src/pairing.cpp:278-282 | and one with the scheme is refused only for lacking one of these |
| PairingUris.NumbersRead | shared/security/src/pairing.cpp:267-273 | numbers as the C library reads them: the largest on overflow, a minus sign modulo the range, a leading space and a plus sign as nothing |
| PairingUris.DigitsEnd | shared/security/src/pairing.cpp:267-273 | what follows the digits is ignored |
| PairingUris.LinkToTheLetter | shared/security/src/pairing.cpp:200-209 | one offer's link, to the letter |
| PairingUris.CutDecimalValue | shared/security/src/pairing.cpp:267-273 | a decimal number with digits cut off is at most a tenth |
| PairingUris.ParseBody | shared/security/src/pairing.cpp:257-277 | the loop over pieces, its last empty piece included, applies every piece from the left |
| PairingUris.Assign | shared/security/src/pairing.cpp:262-274 | a piece sets its key's field, split at its first equals sign; unknown keys are ignored |
| PairingUris.ParsePairingUri | shared/security/src/pairing.cpp:252-283 | prefix, pieces and the final checks decide between the parsed link and none |
| PhonePtt.LiveNeedsTheAnswer | apps/phone-core/phone_runtime.cpp:103-118 | no run without an acknowledgement is ever live, and what is shown never contradicts the finger |
| PhonePtt.ReleaseNeverStaysLive | apps/phone-core/phone_runtime.cpp:306-321 | a release ends live in every state, and a late acknowledgement does not restore it |
| PhonePtt.CheckGivesUp | apps/phone-core/phone_runtime.cpp:182-190 | a check gives up on arming exactly when the press is more than 1500 ms old or later than the worker's clock reading |
| PhonePtt.PressAfterTheReading | apps/phone-core/phone_runtime.cpp:164-190 | a press just after the worker's clock reading fails at once |
| PhonePtt.NothingOverdue | apps/phone-core/phone_runtime.cpp:182-197 | after a check neither connecting nor releasing is overdue |
| PhonePtt.Disconnected | apps/phone-core/phone_runtime.cpp:295-321 | without a connection a press counts for nothing and a release shows ready at once |
| PhonePtt.ShownUntil | apps/phone-core/phone_runtime.cpp:103-197 | connecting, live and releasing each end exactly with the answers for them, or with a check more than 1500 or 800 ms after, or before, the press or release; and in live, ready or failed |
| PhonePtt.ShownThroughout | apps/phone-core/phone_runtime.cpp:103-197 | until then nothing heard and no check changes anything |
| PhonePtt.PressAndReleaseAreTimed | apps/phone-core/phone_runtime.cpp:295-321 | a press that counts is connecting, and a release of anything shown releasing, each timed from its own moment |
| PhonePtt.PhoneRuntime.Press | apps/phone-core/phone_runtime.cpp:295-304 | a press counts and asks for the microphone only when authenticated and not already pressed |
| PhonePtt.PhoneRuntime.Release | apps/phone-core/phone_runtime.cpp:306-321 | never a no-op: unpressed always, and a stop is sent whenever authenticated |
| PhonePtt.PhoneRuntime.OnControl | apps/phone-core/phone_runtime.cpp:103-118 | live only on an acknowledgement while pressed |
| PhonePtt.PhoneRuntime.WorkerCheck | apps/phone-core/phone_runtime.cpp:164-197 | both timeouts, with the unsigned differences of the source |
| ServicePtt.PressFollowsRelease | apps/service/main.cpp:457-480 | in every run of the service, while a request stands each release waiting in the router's queue is followed by a press, and nothing but presses, releases and mode changes waits |
| ServicePtt.AnnouncementHoldsIff | apps/service/main.cpp:592-600 | in every run of callbacks, media and turns, the turn that acknowledges makes the router live exactly when no mode change is waiting, or the last one is to automatic and a press comes last of all, and no source that the turn reads fails |
| ServicePtt.WaitingDecides | windows/audio-service/src/source_state_machine.cpp:18-66 | what any waiting presses, releases and mode changes leave of an arming router: arming exactly when nothing waits or a press comes last in automatic mode |
| ServicePtt.ModeFalsifies | apps/service/main.cpp:473-480 | whenever it could be sent with nothing waiting, a change to any other mode than automatic that comes first makes it untrue |
| ServicePtt.FailureFalsifies | apps/service/main.cpp:592-600 | a local microphone that fails in the turn that acknowledges makes it untrue, whatever is waiting |
| ServicePtt.UntrueAnnouncements | apps/service/main.cpp:449-600 | a press, a turn and the frames that readiness asks for reach, from the start, an acknowledgement that a failing microphone makes untrue, and so does a change to mute |
| MediaLiveness.MediaKeepsLive | apps/service/main.cpp:449-456 | a phone that is live stays live as long as no turn comes more than phoneLostTimeoutMs / 20 turns, one at least, after the last media, whatever it carries |
| MediaLiveness.TalkStaysLive | apps/service/main.cpp:449-600 | from the start: a press, a turn, frames and the acknowledging turn make the phone live, and media before every turn keeps it so for ever |
| MediaLiveness.LiveServicePlays | windows/audio-service/src/router.cpp:175-198 | while the phone is live the phone source hears exactly what arrives and one packet is played in every turn |
| MediaLiveness.SpurtAtTheService | shared/media/src/phone_media_source.cpp:35-75 | a spurt that reaches a live service, whatever of it is lost, repeated or late, goes through the playout in which packet p is played at position p and positions increase |
| ServicePtt.PttService.OnControl | apps/service/main.cpp:457-480 | start and stop set the flags, post to the router and are answered; a mode is posted |
| ServicePtt.PttService.OnMedia | apps/service/main.cpp:449-456 | arriving media is handed to the phone source and moves the router's liveness stamp, and nothing else |
| ServicePtt.PttService.AnnounceReady | apps/service/main.cpp:592-599 | an acknowledgement is sent exactly when requested, not announced, arming and with the phone source ready |
| ServicePtt.PttService.Turn | apps/service/main.cpp:590-600 | announce, then one router tick, which reads the phone source at most once |
| PttChain.PttNeverOutrunsThePress | apps/phone-core/phone_runtime.cpp:295-320 | in every run of an epoch over lossy, duplicating, reordering links: entries into live <= acknowledgements sent <= requests handled <= presses that counted |
| PttChain.TurnKeeps | apps/service/main.cpp:592-599 | an acknowledgement is sent only while arming and while the jitter buffer, fed by the up link and drained by the router, is ready, and uses up a request that was handled |
| PttChain.ServedAtMostSent | shared/session/src/peer_session.cpp:236-253 | at most as many callbacks of a kind as messages of that kind were sealed |
| PttAnswers.LiveAnswersARequest | apps/phone-core/phone_runtime.cpp:103-118 | after a press with no acknowledgement under way and none owed that could be sent without another request, going live implies in every continuation that the PC has handled a further request |
| PttPresses.LiveAnswersARequestIff | apps/phone-core/phone_runtime.cpp:103-118 | that condition is exact: without it going live does not imply it |
| PttPresses.StaleAnswer | apps/phone-core/phone_runtime.cpp:106-113 | otherwise a continuation makes the phone live with no request handled since |
| PttPresses.StalePressIsReachable | apps/phone-core/phone_runtime.cpp:295-321 | press, release and press again reach that from a fresh epoch: live on the second press with one request handled |
| PttPresses.LiveAnswersThePress | apps/phone-core/phone_runtime.cpp:103-118 | if besides no earlier request is under way, live implies in every continuation that a request sealed at this press or later has been served |
| PttPresses.DelayedRequestAnswers | apps/service/main.cpp:457-463 | an earlier request still under way makes the phone live with none of those served, if automatic was the last mode selected or both windows have room for one more message that selects it |
| PttPresses.LiveMeansHandledWhen | apps/phone-core/phone_runtime.cpp:295-321 | both directions together: when going live means that this press or a later one was handled, and when it does not |
| PttPresses.DelayedPressIsReachable | apps/phone-core/phone_runtime.cpp:295-321 | in a run from a fresh epoch the second press meets the condition of LiveAnswersARequest and goes live on the first one's delayed request |
| PttReplies.ReleaseIsAnswered | apps/service/main.cpp:464-469 | whenever a connected phone that shows anything is released it shows releasing, and ready once the PC has handled that and its reply has arrived |
| PttReplies.PressIsPrepared | apps/service/main.cpp:457-463 | whenever a press counts the phone shows connecting, and the PC's reply leaves it so |
| PttMicrophone.SentExactlyWhileHeld | apps/phone-core/phone_runtime.cpp:141-170 | in any state one step of either end or of the network sends a frame exactly when the microphone gives one that can be encoded while the button is held on an authenticated phone |
| PttMicrophone.NothingSentUnpressed | apps/phone-core/phone_runtime.cpp:150 | in every run, until the button is pressed nothing of the microphone leaves the phone, whatever the PC or the network do |
| PttMicrophone.ReleaseSilences | apps/phone-core/phone_runtime.cpp:306-321 | after a release nothing more of the microphone leaves before the next press |
| PttMicrophone.FirstFrameIsMarked | apps/phone-core/phone_runtime.cpp:295-303 | in every run after a press the first frame sent is marked and the frames are numbered on without a gap |
| PttMicrophone.HeldIsSent | apps/phone-core/phone_runtime.cpp:141-170 | while the button is held on an authenticated phone every encoded frame is sent, in order |
| PttAudio.NewEpochMedia | shared/media/src/phone_media_source.cpp:35-75 | the invariant of the next row holds in a fresh epoch |
| PttAudio.EveryRunMedia | shared/media/src/phone_media_source.cpp:35-75 | in every run of an epoch each queued frame is one the phone sealed under that key, and playout is never ahead of what was packed |
| PttAudio.OwnAudioIff | apps/service/main.cpp:592-593 | the source is ready on frames packed since the press alone, in every continuation, exactly when at the press nothing is queued and every earlier frame under way is unmarked and already passed |
| PttAudio.OnEarlierAudio | apps/service/main.cpp:449-456 | otherwise a continuation makes the source ready with an earlier frame in it |
| PttAudio.StaleAudioIsReachable | apps/service/main.cpp:592-599 | press, frames, release and press again reach, from a fresh epoch, an acknowledgement and live with no frame packed since the second press |

## Left out

- Floating point: `float` and `double` are reals, so rounding, drift and denormals are not modelled; `cos` and `sin` are functions with equal power and exact endpoints (at the phone end the computed cosine is only close to zero).
- Memory order: callbacks, turns of the audio loop and parser calls are atomic steps, so no callback falls between the service's four-part guard and its tick. Only the ring of `SpscRing` is split into single loads, copies and stores, which are sequentially consistent there.
- Counters of 64 bits do not wrap, except in the driver link's guard and the phone's clock differences, where wrapping decides what happens.
- Cryptography: the group satisfies stated laws, hashes and signatures stand for exactly what they were made from, and a sealed box opens exactly under its key; byte layouts of nonces and boxes are not modelled.
- Pairing and control messages are values: their JSON text, base64 and field lookup are library behaviour; an unreadable field is a value of its own.
- PeerSession.adoptSessionKey and the Revoked state: nothing in the repository calls the one or enters the other.
- PairingAgreement.Agreement: stated for one initiator and one responder whose messages the network may lose, repeat, reorder and reflect but not forge; a forged message is rejected by the ideal signature, and forging arbitrary hellos is not modelled.
- Handshake progress under loss is not claimed: the last two messages are never retransmitted.
- DriverRings.SharedSection.Write: excludes a write of more than 8192 frames that the guard admits, which needs a starved reader that far ahead; the source would then copy past the payload. The router always writes 960.
- DriverRings.EveryRunFaithful: the shared counters for diagnostics, the claim protocol and the mapping of the section are not modelled; clocks are parameters.
- LossyDelivery.EveryScheduleDeliversOnce: one epoch that both ends begin together; restarts of one end are in SessionEpochs.
- SessionDelivery.EveryCallbackGenuineAndOnce: one epoch that both ends begin together; SessionEpochs.EveryEpochGenuineAndOnce covers restarts.
- SessionDelivery.FirstArrivalServed: one epoch that both ends begin together; SessionEpochs.ServedIff covers restarts.
- JitterBuffers.JitterBuffer.Push: stored arrival times and the stall check are left out; the conversion of the jitter estimate to 32 bits is taken modulo 2^32.
- JitterBuffers.JitterBuffer.Pop: the decoder's samples are represented by the payload, and its verdict is an input.
- Routers.AudioRouter.Tick: diagnostics (transition, failure and limiter counters), logging and the device registry are left out; what a source would answer is an input of the tick.
- PttPresses.LiveMeansHandledWhen: leaves one case open, an earlier request still under way while the last mode selected is not automatic and the windows have no room for one more message before it.
- PttAudio.OwnAudioIff: fewer than 2^31 frames are packed in the epoch, so that frames can be told apart by their numbers.
- PttChain.PttNeverOutrunsThePress: assumes that control text and media headers round-trip and that neither is read as the other; haptics, the round-trip timer and status text are left out.
- PairingUris.ParsePairingUri: characters are bytes, and the width of the platform's unsigned long is a parameter.
- Sockets, audio devices, WAV files, user interface, installers and logging: operating system and plumbing.
- DeviceRegistry and sample-format conversion: they would only add small members.
