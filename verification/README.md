# Raptor: models and proofs

Raptor is a set of daemons for a network camera: configuration (rcd), audio (rad, rac), HTTP (rhd),
file playback (rfs) and the infrared filter (ric). This project models the parts of them whose
correctness is not plain from reading one function, and proves what they promise. Each file is one
component.

- `Clock`: the synthetic capture clock of rad. Its slew loop is a second-order control loop in
  truncating integer arithmetic; a quadratic form is shown to contract, which gives convergence from
  anywhere in the window and tracking under jitter.
- `AuthRate`, `AuthSlots`: the password-guess limiter of rhd, a token bucket and a table of eight hosts
  with exponential backoff. The bounds are amortised over every sequence of calls.
- `SendQueue`, `FrameSharing`, `FrameOrder`, `FrameLeak`: the four-slot queue between rhd's main loop and
  a client's send threads, the reference-counted frames they share, and the order they are sent in, over
  every interleaving of their steps.
- `Guard`, `GuardRuns`, `GuardClock`, `GuardCrash`, `GuardDaemon`: the confirm-or-revert protocol of rcd
  over memory, flash, tmpfs, stores and what is in force, with every provider and file operation free to
  fail, and with daemon restarts and reboots. `Guard` holds the specification and what one pass does,
  `GuardRuns` what becomes of a snapshot over whole runs, `GuardClock` what becomes of the clock,
  `GuardCrash` what a failure in the middle of an operation leaves, `GuardDaemon` the daemon that changes
  its fields in loops and is proved to do what the specification says, and `GuardScenario` some runs
  written out.
- `AnnexB`, `Mp4`, `Hvcc`, `Bitstream`, `Bits`, `FrameIndex`, `DisplayOrder`: NAL framing in rfs.
  The encoders of the standards (Annex B and sections 7.4.1 and 9.1 of ITU-T H.264, ISO/IEC 14496-15)
  are written out as partners of the decoders.
- `OggCrc`, `OggDivision`, `OggPage`, `OggPlay`, `OggRecord`: the Ogg checksum against long division of
  polynomials and the division theorem, the two page builders, and the recorder and the player as
  inverses (RFC 3533, RFC 7845). A 32-bit word of the checksum is modelled as its bits.
- `Stanza`, `StanzaReader`: the rewriter of the interface stanza as a lens: what it writes it reads, and
  what it does not own it keeps. This is the law of a store that `Guard` takes for granted.
- `DayNight`, `DayNightRuns`: the day/night controller, a debounced state machine with cooldown, settling,
  a lockout and a probe. Ghost histories of votes, readings and dips say what its counters mean.
- `Basics`: what several of these share.

Where code works by changing state it is a class or a method with loops, proved equal to a
specification function or to a stated relation; the theorems are about the specification.

What the code does differently from what its comments or its design say is proved as it is:

- A streaming client's request text is never cleared, so one more byte from it runs the request again
  over a live queue: frames waiting there are never freed, and a second send thread is started, which can
  be left running and can send ahead of the first (`FrameLeak.WipedQueueLeaks`,
  `FrameLeak.SecondThreadOutlives`, `FrameOrder.OvertakingRun`). When this cannot happen is said of the calls
  in `FrameSharing.NothingIsLostIff`, `FrameSharing.OneThreadIff` and `FrameOrder.OneAbleIff`; that it can
  otherwise, in `FrameLeak.CanOutlive` and `FrameOrder.TwoThreadsOvertake`.
- A guard whose retries are used up is to be reverted by the next power cycle. It is only when an apply
  armed its record: a cancelled change that was never applied is not
  (`GuardScenario.RefusedCancelIsNotUndone`, exact condition in `GuardRuns.NextStartReverts`).
- The revert of a change that was never applied is to enact nothing. Its retry does
  (`GuardScenario.UnappliedIsEnacted`, exact condition in `GuardClock.UnappliedPassEnactsIff`), and a
  restart of the daemon forgets that it was due (`GuardClock.RestartResumes`).
- A reboot brings a staged change into force with nothing armed (`GuardScenario.RebootOfASet`, exact
  condition in `GuardClock.ExposedIff`, over runs in `GuardClock.StagedUntilExposed`).
- A revert marks what it has put back and not enacted in memory only. A daemon that goes down in between
  leaves the new value in force for good (`GuardCrash.CutShortIsLost`, exact condition in
  `GuardCrash.InForceAfterRestart`).
- rcd/rcd_guard.h describes a reboot inside the window as a recovery. The stores are recovered, but the
  boot has brought the interface up before the daemon puts them back, and nothing is enacted then
  (`Guard.RebootRestoresStoresOnly`).
- The scratch buffer for conversion is too small for many small units under one-byte lengths
  (`Mp4.TinyUnitsOverflow`, exact condition in `Mp4.ScratchSuffices`).
- The tests of the converter are sums of 32 bits. A length that makes the first of them wrap passes it
  (`Mp4.AllOnesPass`, exact conditions in `Mp4.UnitTestDecides` and `Mp4.RoomTestDecides`,
  what comes of it in `Mp4.ToAnnexB`).
- A reserved flag of an H.265 slice header is taken for the slice type (`FrameIndex.ReservedFlagMisleads`).
- A payload that ends in an odd number of zero bytes keeps the final three its encoder appended
  (`Bitstream.UnescapeInverts`).
- The player's loop ends when its buffer is empty. After a read that came short exactly at a page's end
  that is before the stream is: `OggPlay.Play` says what is lost, `OggRecord.StoppingAtAPage` when
  something is, and nothing is when reads come short only at the end, as C promises of `fread`.
- A recording whose last frame is empty has no page with the end-of-stream flag
  (`OggRecord.PagesAreNumbered`).
- A probe stays marked active when the day it found is taken back, when the night is forced and when a
  bank is enabled, so that luma is trusted with the lights on (`DayNightRuns.TakenBackRun`,
  `DayNightRuns.ForcedNightRun`, `DayNightRuns.BankEnabledRun`; exact condition in `DayNightRuns.Operate`).
- Dips are counted over the polls that are watched for one, and a change of mode does not start the
  count anew (`DayNight.DipsOfTwoNights`, exact statement in `DayNight.Ric.ProbeDue`).

Two facts are about a function alone and cannot come about in the program, because of what its callers
guarantee:

- A name longer than 63 characters is cut when stored in the limiter's table but compared whole, so it
  would take a new slot at every visit (`AuthRate.LongNamesRepeat`, exact condition in
  `AuthRate.SlotKeepsDistinct`). The names come from a buffer of 64 bytes (rhd/rhd_api.c:593-595), so
  none is that long.
- On a queue with both pictures and audio a replaced picture would overtake the audio before it
  (`SendQueue.MixedKindsOvertake`, exact condition in `SendQueue.PushKeepsOrder`). No client is sent
  both: a request handled again is the same text, and so of the same kind (rhd/rhd_main.c:661-695).

## Model

| member | source | states |
|---|---|---|
| `Clock.RadClock.Init` | rad/rad_clock.c:53-59 | a fresh clock stands on the wall clock, with its filter at rest |
| `Clock.RadClock.Stamp` | rad/rad_clock.c:61-91 | returns the time of the chunk just read and moves timeline, filter and resync mark as the specification `Stamped` says |
| `Clock.StampedMoves` | rad/rad_clock.c:61-91 | the clock jumps exactly when the error is outside the window and the read was live-paced; a jump lands on the wall and clears the filter, anything else moves the timeline by the chunk to within a millisecond |
| `Clock.StampIsStep` | rad/rad_clock.c:82-88 | an in-window stamp followed by a late or early read is one step of the loop on (error, filtered error) |
| `Clock.RealLoopContractsExactly` | rad/rad_clock.c:82-88 | without truncation or clamping every stamp takes Q = 16e² - 15em + 15m² to exactly 15/16 of itself |
| `Clock.LoopContracts` | rad/rad_clock.c:82-88 | the integer loop satisfies 31 Q' <= 30 Q + 42722 plus the cost of a late read, whatever its two truncating divisions do, as long as the slew is not clamped |
| `Clock.CapturedIsCalm` | rad/rad_clock.c:72-88 | below the capture level of Q the error is inside the resync window and the slew is not clamped |
| `Clock.LoopSettles` | rad/rad_clock.c:61-91 | once captured, with every read early or late by at most j <= 400 µs, the clock never resyncs and from 992 chunks on stays within 36 j + 60 µs of the wall |
| `Clock.CaptureFromRest` | rad/rad_clock.c:61-91 | from any error inside the window, with the filter at rest, the drift-free loop reaches the capture level without leaving the window |
| `Clock.RestConverges` | rad/rad_clock.c:53-91 | from any error inside the window a clock at rest gets within 60 µs of a drift-free wall, stays there, and never resyncs |
| `AuthRate.RateLimiter.Reset` | rhd/rhd_authrate.c:30-35 | a limiter starts with no host in its table and a full bucket |
| `AuthRate.RateLimiter.SlotFor` | rhd/rhd_authrate.c:39-67 | finds the host's slot, a free one or the quietest one, and leaves the table as `Slotted` says |
| `AuthRate.RateLimiter.MayHash` | rhd/rhd_authrate.c:69-112 | grants or refuses, with the seconds to wait, and refills, spends and forgets as `Asked` says |
| `AuthRate.RateLimiter.Failed` | rhd/rhd_authrate.c:114-137 | counts the failure and sets the wait by doubling as `AfterFailure` says, where the wait is min(1000 * 2^(n-4), 30000) ms |
| `AuthRate.RateLimiter.Succeeded` | rhd/rhd_authrate.c:139-156 | forgets the host's failures and gives the token back as `AfterSuccess` says |
| `AuthRate.EvictsTheQuietest` | rhd/rhd_authrate.c:39-67 | a used slot is taken over only when all eight are in use, the host has none, and no other was quiet for longer |
| `AuthRate.SlotKeepsDistinct` | rhd/rhd_authrate.c:39-67 | the hosts stay distinct if and only if the stored, possibly cut, name is not in another slot; every name of at most 63 characters keeps them distinct |
| `AuthRate.LongNamesRepeat` | rhd/rhd_authrate.c:43-66 | a name of 64 characters takes a second slot on its second visit |
| `AuthRate.CreditOfOneCall` | rhd/rhd_authrate.c:69-156 | the potential 500 * tokens + (now - refill) grows by no more than the time passed, pays for every grant and is repaid by every success |
| `AuthRate.CreditAfterGrant` | rhd/rhd_authrate.c:95-111 | a grant leaves at most five tokens' worth of credit |
| `AuthRate.CreditOverRun` | rhd/rhd_authrate.c:69-156 | the same account over every call sequence that begins with a grant |
| `AuthRate.HashCeiling` | rhd/rhd_authrate.c:69-156 | for any number of hosts and any order of calls, grants less successes between two grants are at most 6 + (t2 - t1)/500 |
| `AuthRate.TryKeepsTended` | rhd/rhd_api.c:291-303 | under the caller's protocol hosts stay distinct and no wait outlives the five-minute forgetting |
| `AuthRate.WaitStands` | rhd/rhd_authrate.c:69-137 | nothing that happens inside a wait, to this host or others, shortens it |
| `AuthRate.BackoffHolds` | rhd/rhd_api.c:291-303 | while a host keeps its slot, no attempt inside the wait of its n-th consecutive failure, n >= 4, is granted a hash |
| `AuthRate.GuessesAccounted` | rhd/rhd_authrate.c:69-137 | every guess of a host is paid for by waiting or is one of the few cheap first ones |
| `AuthRate.DictionaryBound` | rhd/rhd_authrate.c:69-137 | a host that keeps its slot and never succeeds gets G guesses in time T only if 30000 G <= T + 239000, forgetting included |
| `AuthSlots.LostToEight` | rhd/rhd_authrate.c:39-67 | a host loses its slot only when eight others have made an attempt no earlier than its own last |
| `AuthSlots.FewHostsKeepSlots` | rhd/rhd_authrate.c:39-67 | from an empty limiter a host keeps its slot, from an attempt of its own on, as long as fewer than eight others make one no earlier |
| `AuthSlots.DictionaryBoundForFew` | rhd/rhd_authrate.c:69-137 | so for any host, while fewer than eight others try, G guesses in time T need 30000 G <= T + 239000, with no word about slots |
| `SendQueue.Ring.constructor` | rhd/rhd_main.c:189-199 | a new queue is empty |
| `SendQueue.Ring.Drop` | rhd/rhd_main.c:214-218 | the oldest entry leaves, the rest keeps its order |
| `SendQueue.Ring.Flush` | rhd/rhd_main.c:212-221 | empties the queue and drops exactly what it held, in order |
| `SendQueue.Ring.Replace` | rhd/rhd_main.c:244-255 | a waiting picture is exchanged for the new one, in its place |
| `SendQueue.Ring.Append` | rhd/rhd_main.c:260-267 | the four slots read as a sequence gain one entry at the end |
| `SendQueue.Ring.Push` | rhd/rhd_main.c:233-272 | refuses after shutdown, else acts on the queue's contents as the simple specification `Pushed` does, with head = (tail + count) mod 4 kept |
| `SendQueue.Ring.Take` | rhd/rhd_main.c:291-295 | the send thread gets the oldest entry |
| `SendQueue.PushConserves` | rhd/rhd_main.c:233-272 | what the queue held and the new frame are exactly what it holds now and what it let go |
| `SendQueue.EveryFrameOnce` | rhd/rhd_main.c:189-316 | in every history of pushes, takes and wipes each frame pushed is taken, waiting, let go or wiped, and exactly one of the four |
| `SendQueue.PushKeepsOrder` | rhd/rhd_main.c:233-272 | a push keeps delivered and waiting frames in order if and only if it is audio or no picture waits but in last place |
| `SendQueue.TakeKeepsOrder` | rhd/rhd_main.c:291-295 | taking an entry never breaks that order |
| `SendQueue.PicturesStayFresh` | rhd/rhd_main.c:244-255 | a queue of pictures holds at most one and it is the newest pushed |
| `SendQueue.AudioIsLostInFours` | rhd/rhd_main.c:257-267 | audio waits as the unbroken run of the newest frames, and pushes let go of it only in whole runs of four |
| `SendQueue.OneKindStaysInOrder` | rhd/rhd_main.c:233-316 | frames of one kind leave the queue as an in-order, duplicate-free subsequence of what was pushed, wiped or not in between |
| `SendQueue.MixedKindsOvertake` | rhd/rhd_main.c:244-255 | a second picture behind audio is sent ahead of it |
| `FrameSharing.StepKeepsGood` | rhd/rhd_main.c:68-105 | every step of the main loop or of a send thread, a request handled again over a live queue among them, keeps: a frame's count equals its holders plus the references wiped with a queue, and the frame being written has the server alone as holder |
| `FrameSharing.RunsAreGood` | rhd/rhd_main.c:189-376 | so it does over every interleaving |
| `FrameSharing.FramesAreSafe` | rhd/rhd_main.c:88-105 | in every interleaving nothing freed is used, a frame is freed at most once and exactly when nobody holds it and no wiped queue lost it, and a frame being written is in no queue and no thread's hands |
| `FrameSharing.NothingIsLostIff` | rhd/rhd_main.c:189-199 | counts equal holders, and so nothing leaks, if and only if no client with frames waiting sends more after its request |
| `FrameSharing.OneThreadIff` | rhd/rhd_main.c:331-344 | every client has one thread at most at every moment of a run if and only if no request is handled again, and starts a thread, for a client that has one |
| `FrameSharing.ThreadsEndWithTheirClient` | rhd/rhd_main.c:331-376 | and in such a run no thread outlives its client |
| `FrameLeak.WipedQueueLeaks` | rhd/rhd_main.c:1147-1178 | a run in which a client sends one byte more while a frame waits for it: nobody holds that frame any more, and it is never freed |
| `FrameLeak.SecondThreadOutlives` | rhd/rhd_main.c:331-376 | a run in which a request handled twice leaves a thread running when the client is removed |
| `FrameLeak.CanOutlive` | rhd/rhd_main.c:348-376 | from any moment at which a client has a thread that has not ended besides the one started last, the run can go on so that the client is removed and that thread left running |
| `FrameOrder.TrackTied` | rhd/rhd_main.c:233-316 | a connection followed through a run by the numbers of its pushes: what waits in its queue and what its threads have in hand are the buffers of those numbers |
| `FrameOrder.OneAbleIff` | rhd/rhd_main.c:331-344 | no client has two threads that wait or are sending, at any moment of a run, if and only if no request is handled again while a thread of its client is able |
| `FrameOrder.OneThreadSendsInOrder` | rhd/rhd_main.c:283-316 | in such a run a connection is sent what was taken from its queue, in that order, but for the one frame in hand, and if it is of one kind in the order of the pushes, no frame twice |
| `FrameOrder.TwoThreadsOvertake` | rhd/rhd_main.c:283-316 | from any moment at which a connection that can be pushed to has two such threads, the run can go on so that a frame goes out before one taken earlier |
| `FrameOrder.OvertakingRun` | rhd/rhd_main.c:1147-1178 | a run from the start in which one byte more from a client brings this about |
| `FrameSharing.RemoveClient` | rhd/rhd_main.c:348-376 | the last client moves into the gap, the others stay |
| `FrameSharing.SeenOneMore` | rhd/rhd_main.c:725-739 | removing the client just visited leaves the clients still to be visited where they were |
| `FrameSharing.StreamFrame` | rhd/rhd_main.c:725-739 | the downward walk visits every client exactly once, last to first, and leaves exactly those that are not gone |
| `Guard.SnapshotOk` | rcd/rcd_guard.c:127-148 | the snapshot lists guarded keys in table order, twelve at most, each with what its store held |
| `Guard.SnapshotCovers` | rcd/rcd_guard.c:127-148 | and leaves no guarded key out while there is room |
| `Guard.PutBackProgress` | rcd/rcd_guard.c:408-497 | after the first part of a pass every key of the snapshot is back, or counted as failed and still owed |
| `Guard.EnactAllProgress` | rcd/rcd_guard.c:504-518 | after the second part every listed enact has put its stores into force, or is counted as failed and its keys stay owed |
| `Guard.PassHonest` | rcd/rcd_guard.c:381-533 | a pass, landed or not, leaves a camera on which every key written back but not yet in force is still marked as owed |
| `Guard.LandedKey` | rcd/rcd_guard.c:381-533 | a pass without failure leaves each key of the snapshot at its old value, out of the drift list, and in force if a pass wrote it |
| `GuardClock.PassEnactsIff` | rcd/rcd_guard.c:318-328 | a pass calls an enact if and only if the clock was running and some key of that enact is put back by this pass or was by an earlier one that could not enact it |
| `GuardClock.UnappliedClockRunsIff` | rcd/rcd_guard.c:343-361 | the clock of a change that was staged and never applied runs if and only if a revert has failed since the daemon was last started |
| `GuardClock.UnappliedPassEnactsIff` | rcd/rcd_guard.c:386-390 | so the revert of a change that was never applied calls an enact if and only if an earlier attempt failed since the last start and a key of it is due |
| `Guard.EnactsAreCalledOnce` | rcd/rcd_guard.c:318-328 | one pass calls each distinct enact at most once |
| `Guard.StepKeepsInv` | rcd/rcd_guard.c:127-672 | sets, applies, confirms, ticks, restarts and reboots, each with any mix of failures, keep the daemon's state well-formed and honest about what is owed |
| `GuardRuns.StepKeepsSnapshot` | rcd/rcd_guard.c:150-163 | an event leaves a held guard held if and only if it is not a confirm, a settled radio, a pass that lands or the last failed pass; memory and flash then have the same snapshot, and the record is armed if and only if it was or this apply armed it |
| `Guard.RunKeepsInv` | rcd/rcd_guard.c:127-672 | the invariant over every run |
| `GuardRuns.StartKeepsWhatFlashHas` | rcd/rcd_guard.c:587-632 | through a start that does not end it a guard is held on if and only if flash has a record, with the snapshot of that record |
| `GuardRuns.FirstSnapshotIsDurable` | rcd/rcd_guard.c:150-163 | from a recorded hold on, through any events none of which ends the guard, restarts, reboots and failed reverts among them, memory and flash hold exactly that snapshot |
| `GuardRuns.HeldSinceThen` | rcd/rcd_guard.c:150-250 | that snapshot is what the stores held before the hold, and the record is armed if and only if an apply of a key with a window was made since |
| `Guard.LandedRevertRestores` | rcd/rcd_guard.c:381-533 | in every run, an armed revert that ends without failure leaves every snapshotted store at the value of the snapshot, no such key in the drift list, every key this or an earlier failed pass wrote back in force, and no record or marker |
| `GuardRuns.StoresAreAsBeforeTheHold` | rcd/rcd_guard.c:381-533 | whatever event makes the pass that lands, a tick, a cancel, a restart or a reboot, every snapshotted store reads as it did before the event that took the snapshot |
| `Guard.ApplyIsGuarded` | rcd/rcd_apply.c:403-462 | an apply that owes a guarded key an enact leaves the clock running for at least its window over the snapshot, the armed record on flash and the marker beside it |
| `GuardRuns.ArmedIsGuarded` | rcd/rcd_apply.c:410-416 | so does the arming by itself, with stores and force still as they were: this is the camera every enact of the apply finds |
| `Guard.InForceAfterRevert` | rcd/rcd_guard.c:408-518 | after a landed revert a key's old value is in force if and only if its enact was called in this pass or it was in force already |
| `Guard.CalledAreEnacted` | rcd/rcd_guard.c:408-497 | the enacts of a pass are exactly those of the keys it rewrote or still owed |
| `GuardRuns.PassOutcome` | rcd/rcd_guard.c:343-379 | a landed pass clears everything; a failed one keeps the same snapshot and the record and is armed again after 15 s; the last failed one drops the snapshot and the clock and leaves the record |
| `Guard.RebootRestoresStoresOnly` | rcd/rcd_guard.c:641-660 | a reboot inside the window restores the stores but enacts nothing: the old value is in force afterwards if and only if the store already held it at boot |
| `GuardRuns.RetriesAreBounded` | rcd/rcd_guard.c:343-379 | in every run at most four retries are pending |
| `GuardRuns.GuardComesToRest` | rcd/rcd_guard.c:343-379 | through any sets, applies that arm nothing, cancels and ticks, at most five passes are made over one hold, nothing is held or armed after the fifth, and the passes are counted while something is held |
| `GuardRuns.NextStartReverts` | rcd/rcd_guard.c:364-379 | when the retries are used up the record is kept, and the next start, after a reboot or not, reverts from it if and only if an apply armed the guard since the hold; otherwise the stores stay and a reboot has brought them into force |
| `GuardRuns.StartAfterGivingUp` | rcd/rcd_guard.c:641-660 | from any state with a record and no marker a start reverts if and only if the record is armed |
| `GuardRuns.KeptRecordIsOverwritten` | rcd/rcd_guard.c:150-163 | the next guarded set replaces a record that was kept by what the stores hold by then |
| `GuardClock.RestartResumes` | rcd/rcd_guard.c:587-672 | while files can be written, a restart with the clock running resumes the same deadline, window and snapshot, or reverts that snapshot if the deadline has passed; for a retry of a change that was never applied it keeps the snapshot and drops the clock |
| `GuardClock.ConfirmIsFinal` | rcd/rcd_guard.c:299-311 | after a confirm, by hand or by the radio, and until a guarded key is set or applied again, nothing is held and no tick, cancel, restart or reboot changes a store nobody sets or brings another value of it into force |
| `GuardClock.ExposedIff` | rcd/rcd_guard.c:630-644 | from a staged change, one event puts a value nobody confirmed in force with no clock running if and only if it is a reboot with the new value in its store, an apply that calls that enact for keys without a window, or a set of a key without an enact |
| `GuardClock.StagedUntilExposed` | rcd/rcd_guard.c:150-163 | over whole runs a staged change stays staged, with nothing of it in force, up to the first event that arms, reverts or exposes it, and is in force without a clock after that if and only if it is exposed |
| `GuardClock.SetStages` | rcd/rcd_config.c:1527-1578 | a guarded set, of a key with an enact, on a camera with everything in force, is such a change |
| `GuardScenario.UnconfirmedIsUndone` | rcd/rcd_guard.c:381-562 | a run written out: a guarded change is set and applied, nobody confirms, the first revert cannot bring the old value into force and the second does |
| `GuardScenario.RefusedCancelIsNotUndone` | rcd/rcd_guard.c:364-379 | a run in which a change is set, cancelled and retried with its store refusing: the reboot after the last retry leaves the new value in store and in force with nothing armed |
| `GuardScenario.UnappliedIsEnacted` | rcd/rcd_guard.c:386-390 | a run in which the retry of a cancelled change that was never applied calls its enact |
| `GuardScenario.RebootOfASet` | rcd/rcd_guard.c:630-644 | a run in which a set is followed by a reboot: the new value is in force, nothing is armed, and a later apply does nothing |
| `GuardDaemon.Rcd.RecordWrite` | rcd/rcd_guard.c:32-88 | the record on flash becomes the snapshot, or stays when flash refuses |
| `GuardDaemon.Rcd.StaleAdd` | rcd/rcd_config.c:31-51 | the drift list gains the key once, while there is room |
| `GuardDaemon.Rcd.StaleForget` | rcd/rcd_config.c:68-78 | the drift list loses exactly that key, the others keep their order |
| `GuardDaemon.Rcd.EnactOwed` | rcd/rcd_config.c:149-158 | the keys of the drift list whose provider has an enact |
| `GuardDaemon.Rcd.EnactDone` | rcd/rcd_config.c:160-178 | the drift list loses exactly the keys whose enact went well |
| `GuardDaemon.Rcd.TakeSnapshot` | rcd/rcd_guard.c:127-148 | the loop over the table takes the snapshot of the specification |
| `GuardDaemon.Rcd.Hold` | rcd/rcd_guard.c:150-163 | the first hold takes and records the snapshot, a later one changes nothing |
| `GuardDaemon.Rcd.Arm` | rcd/rcd_guard.c:211-250 | starts the clock for the window, holding first if nothing is held, and writes record and marker |
| `GuardDaemon.Rcd.PutBackAll` | rcd/rcd_guard.c:408-497 | the first loop of a pass, over the snapshot in place, does what `PutBack` says |
| `GuardDaemon.Rcd.EnactEach` | rcd/rcd_guard.c:504-518 | the second loop of a pass, over the enacts listed, does what `EnactAll` says; it calls exactly these, in order, and every call finds the stores as the first loop left them |
| `GuardDaemon.Rcd.Retry` | rcd/rcd_guard.c:343-379 | re-arms or gives up as the specification says |
| `GuardDaemon.Rcd.RunPass` | rcd/rcd_guard.c:408-518 | a pass calls exactly the enacts of the specification, each after every store is back |
| `GuardDaemon.Rcd.Revert` | rcd/rcd_guard.c:381-533 | one whole pass and its outcome |
| `GuardDaemon.Rcd.Tick` | rcd/rcd_guard.c:535-562 | asks the radio, confirms, reverts or waits as the specification says |
| `GuardDaemon.Rcd.Load` | rcd/rcd_guard.c:587-672 | recalls the record and goes on, reverts or forgets as the specification says |
| `GuardDaemon.Rcd.Edit` | rcd/rcd_config.c:1527-1578 | a set holds first, then writes the provider's store and notes the drift, or changes nothing when the store refuses |
| `GuardDaemon.Rcd.Apply` | rcd/rcd_apply.c:403-462 | arms, calls exactly the enacts of the owed keys, each once, and settles the drift of those that went well; every call finds the armed camera: the record, the marker and the clock are there before the first of them |
| `GuardDaemon.Rcd.EnactDistinct` | rcd/rcd_apply.c:421-449 | the enacts of the owed keys are called, each where it comes first, and the result says which went well |
| `GuardDaemon.DistinctExactly` | rcd/rcd_apply.c:421-449 | these are exactly the enacts of the owed keys, no one twice |
| `GuardCrash.MidwayIsHonest` | rcd/rcd_guard.c:408-518 | wherever a pass is cut short, between two keys or two enacts, record, marker and clock are as they were, the snapshot is the same and what is not in force is marked as owed |
| `GuardCrash.CutShortIsTakenUp` | rcd/rcd_guard.c:587-672 | the next start makes a pass over an armed guard whose revert was cut short, or leaves its clock running |
| `GuardCrash.CutShortRestores` | rcd/rcd_guard.c:381-533 | once that pass lands every store of the snapshot is back |
| `GuardCrash.InForceAfterRestart` | rcd/rcd_guard.c:408-518 | after it a key is in force with its old value if and only if it was when the daemon went down or some key of its enact had not been put back by then |
| `GuardCrash.InForceAfterReboot` | rcd/rcd_guard.c:641-660 | after a power failure instead, if and only if its store had been put back by then |
| `GuardCrash.CutShortIsLost` | rcd/rcd_guard.c:408-518 | a daemon that goes down between the two loops: the restart finds the store put back, is done with the guard, and the new value stays in force |
| `GuardCrash.CallingEnds` | rcd/rcd_apply.c:403-462 | the stages of an apply end with the apply, but for its bookkeeping of the drift |
| `GuardCrash.RecordedBeforeInForce` | rcd/rcd_apply.c:410-449 | wherever an apply that arms is cut short, nothing has been enacted or the armed record of the snapshot is on flash |
| `GuardCrash.ArmedIsTakenUp` | rcd/rcd_guard.c:587-672 | any start makes a pass over an armed record or leaves a clock running |
| `AnnexB.FindStartCode` | rfs/rfs_annexb.c:94-110 | finds the first three- or four-byte start code from a place on, or says there is none |
| `AnnexB.ScanOfFramed` | rfs/rfs_annexb.c:486-500 | scanning units framed by start codes gives the units back if and only if none holds a start code, none longer than a byte ends in zero and the last is not empty |
| `AnnexB.UnitEnd` | rfs/rfs_annexb.c:94-110 | a unit's scan ends behind it if and only if it holds no start code, seam included |
| `Mp4.ReadLength` | rfs/rfs_mp4.c:605-607 | reads the big-endian length |
| `Mp4.ToAnnexB` | rfs/rfs_mp4.c:584-622 | for every sample and buffer: oversteps if and only if a unit passes both 32-bit tests although it is not there or does not fit; otherwise writes the configuration on key frames and then every complete unit behind a start code, or returns -1 when that does not fit or a test does not decide right |
| `Mp4.UnitTestDecides` | rfs/rfs_mp4.c:608-608 | the test whether a unit is all there decides right if and only if offset plus length is below 2^32 |
| `Mp4.RoomTestDecides` | rfs/rfs_mp4.c:610-610 | the test whether it fits decides right if and only if its sum stays below 2^32 or wraps to more than the buffer |
| `Mp4.AllOnesPass` | rfs/rfs_mp4.c:603-619 | a sample that begins with four bytes of ones passes both tests and is overstepped |
| `Mp4.SampleIsExact` | rfs/rfs_mp4.c:603-619 | the tests decide right for every sample that is all units, with sample and buffer together below 4 GB |
| `Mp4.ParseOfSample` | rfs/rfs_mp4.c:603-619 | the converter's walk over a well-formed sample finds exactly its units |
| `Mp4.ConversionKeepsUnits` | rfs/rfs_mp4.c:584-622 | scanning a converted sample gives the configuration units, on key frames, and the sample's units, if and only if all are plain |
| `Mp4.ConversionAtMostDoubles` | rfs/rfs_mp4.c:603-619 | any sample converts within twice its size if and only if (4 - 2 * length size) * units is at most the units' bytes and twice the bytes left over |
| `Mp4.ScratchSuffices` | rfs/rfs_main.c:295-300 | a converted sample fits the scratch of configuration plus twice the largest sample if and only if the same holds with the room the sample and, off key frames, the configuration leave; with lengths of two bytes or more it always does |
| `Mp4.TinyUnitsOverflow` | rfs/rfs_main.c:295-300 | one-byte units under one-byte lengths need more than that |
| `Mp4.ParseAvccConfig` | rfs/rfs_mp4.c:93-136 | copies exactly the record's parameter sets behind start codes with length size, profile and level, or returns -1 when the record is malformed or they do not fit |
| `Mp4.AvccOfEncoded` | rfs/rfs_mp4.c:93-136 | a well-formed AVC record yields its own parameter sets in order |
| `Mp4.KeyFrameScans` | rfs/rfs_mp4.c:584-622 | end to end for H.264: record, sample and conversion scan as parameter sets and units, if and only if all are plain |
| `Hvcc.ParseHvccConfig` | rfs/rfs_mp4.c:138-171 | the same for the arrays of the HEVC record |
| `Hvcc.HvccOfEncoded` | rfs/rfs_mp4.c:138-171 | a well-formed HEVC record yields the sets of all its arrays in order |
| `Hvcc.KeyFrameScans` | rfs/rfs_mp4.c:584-622 | end to end for H.265 |
| `Bitstream.RbspUnescape` | rfs/rfs_annexb.c:76-90 | fills the buffer with the stripped payload, or with as much of it as there is room for |
| `Bitstream.UnescapeIsStrip` | rfs/rfs_annexb.c:76-90 | looking three bytes ahead is the same as counting zeros: a three behind two zeros goes |
| `Bitstream.UnescapeInverts` | rfs/rfs_annexb.c:76-90 | stripping undoes emulation prevention on every payload; with the trailing three of section 7.4.1 of ITU-T H.264 it does so if and only if the payload ends in an even number of zero bytes |
| `Bits.BitReader.Read` | rfs/rfs_annexb.c:38-51 | reads n bits as a number; past the end missing bits are zeros and the reader remembers it |
| `Bits.BitReader.Ue` | rfs/rfs_annexb.c:60-66 | counts leading zeros and reads as many bits again |
| `Bits.BitReader.Se` | rfs/rfs_annexb.c:68-72 | maps the number to its signed value |
| `Bits.UeInverts` | rfs/rfs_annexb.c:60-66 | reads back every number of at most 31 leading zeros from the code of section 9.1 of ITU-T H.264 and stops exactly behind it |
| `Bits.SeInverts` | rfs/rfs_annexb.c:68-72 | the same for signed numbers |
| `FrameIndex.SliceIsB` | rfs/rfs_annexb.c:275-305 | whether a slice header says B, for either codec |
| `FrameIndex.SliceTypeIsRead` | rfs/rfs_annexb.c:275-286 | for a header coded as the standard says, exactly the slice types that are 1 modulo 5 count as B |
| `FrameIndex.H265SliceTypeIsRead` | rfs/rfs_annexb.c:288-305 | for an H.265 header coded as the standard says, without reserved flags, exactly slice type 0 counts as B, and none in a random-access unit |
| `FrameIndex.ReservedFlagMisleads` | rfs/rfs_annexb.c:300-305 | a reserved flag that is set before the slice type makes every slice count as B |
| `FrameIndex.TrimmedLength` | rfs/rfs_annexb.c:499-500 | cuts trailing zeros down to the last byte |
| `FrameIndex.ReadUnit` | rfs/rfs_annexb.c:490-498 | the unit behind a start code reaches to the next one or the end |
| `FrameIndex.ScanFrames` | rfs/rfs_annexb.c:486-538 | the main loop builds the frames of the specification, up to the limit |
| `FrameIndex.FramesPartition` | rfs/rfs_annexb.c:486-538 | for every byte string and either codec the frames are non-empty, lie end to end from the first start code on and stay within the file and the limit |
| `FrameIndex.OneSliceEach` | rfs/rfs_annexb.c:377-419 | each frame contains exactly one unit classified as a slice, and it comes last |
| `FrameIndex.EverySliceIsIndexed` | rfs/rfs_annexb.c:486-538 | below the limit every slice of the file lies in one of the frames |
| `FrameIndex.EveryNalIsSeen` | rfs/rfs_annexb.c:94-110 | the scan sees every unit behind a 00 00 01 |
| `FrameIndex.PayloadsAreScanned` | rfs/rfs_annexb.c:486-500 | the units behind the frames are those of module AnnexB's scan |
| `DisplayOrder.ComputeDisplayOrder` | rfs/rfs_annexb.c:309-341 | with or without B-frames every frame gets its place of the closed form: a B-frame at i gets i - 1, or i before the first reference, a reference gets the place before the next reference, the last one the last |
| `DisplayOrder.DisplayIsPermutation` | rfs/rfs_annexb.c:309-341 | every frame has a place of its own and every place a frame, with the inverse written out |
| `DisplayOrder.ReferencesKeepOrder` | rfs/rfs_annexb.c:309-341 | references are shown in coded order |
| `DisplayOrder.BFramesComeBetween` | rfs/rfs_annexb.c:309-341 | a B-frame is shown before the reference coded last before it and after every earlier one |
| `OggCrc.CrcInit` | rac/rac_record.c:100-108 | fills the table with eight division steps of each byte |
| `OggCrc.LookupIsEightSteps` | rac/rac_record.c:110-115 | one table look-up does what eight bit-at-a-time steps do |
| `OggCrc.CrcUpdate` | rac/rac_record.c:110-115 | the table-driven loop computes the bit-at-a-time checksum from any start value |
| `OggCrc.CrcSplits` | rac/rac_record.c:158-161 | folding over parts in turn is one pass over the whole |
| `OggCrc.CrcIsRemainder` | rhd/rhd_audio.c:125-131 | the checksum is the remainder of the message polynomial, moved up 32 places, in long division by the generator |
| `OggDivision.CrcDivides` | rhd/rhd_audio.c:125-131 | the division theorem: message times x^32 is quotient times generator plus the checksum, and no other quotient and word do |
| `OggPage.PutLe` | rac/rac_record.c:117-135 | shifting and masking writes the little-endian bytes, for negative numbers too |
| `OggPage.LeWraps` | rac/rac_record.c:131-135 | a signed number and the unsigned one it wraps to have the same bytes |
| `OggPage.SegmentsFit` | rac/rac_record.c:137-167 | a packet's segment table has at most 255 entries if and only if it is below 65025 bytes |
| `OggPage.WritePage` | rac/rac_record.c:137-167 | appends the page of the specification, with its checksum folded over three pieces, for every packet whose table fits, and says so of the others, for which the source writes past its table |
| `OggPage.BuildPage` | rhd/rhd_audio.c:138-175 | builds the same page in place, patching the checksum in, or returns -1 and leaves the buffer alone when it does not fit |
| `OggPage.BuildBoth` | rhd/rhd_audio.c:138-175 | called in turn, the recorder's and the sender's builder give the same bytes, also when one is given the granule signed and the other the number it wraps to |
| `OggPlay.Walk` | rac/rac_play.c:536-565 | the walk over a segment table delivers the packets the table spells |
| `OggPlay.PageSize` | rac/rac_play.c:520-524 | sums the segment table to the page's size |
| `OggPlay.FrontIsEnough` | rac/rac_play.c:506-529 | what is decided on the buffer is what would be decided on the whole stream |
| `OggPlay.MarkIsEnough` | rac/rac_play.c:458-458 | a buffer past the refill mark of 66560 always holds a whole page, and more |
| `OggPlay.TakeFront` | rac/rac_play.c:501-571 | one pass takes a page or a byte of junk off the front, or leaves a torn page alone |
| `OggPlay.Play` | rac/rac_play.c:491-571 | for every stream and every peeked prefix, what is delivered and what the unread rest holds are exactly the packets of the stream; with reads that come short only at the end nothing is left unread |
| `OggRecord.Recorder.Put` | rac/rac_record.c:137-167 | one more page, under the next number |
| `OggRecord.Recorder.Begin` | rac/rac_record.c:169-193 | the two header pages, numbered 0 and 1 |
| `OggRecord.Recorder.Frame` | rac/rac_record.c:324-334 | the pending frame is written and the new one waits; the pages the file will hold do not change |
| `OggRecord.Recorder.Finish` | rac/rac_record.c:343-348 | the last pending frame is written with the end-of-stream flag |
| `OggRecord.Recorder.Record` | rac/rac_record.c:244-348 | a whole recording writes exactly the pages of the specification |
| `OggRecord.PlayUndoesRecord` | rac/rac_play.c:491-571 | playing what was recorded from any frames under 65025 bytes gives back exactly the non-empty ones, in order |
| `OggRecord.StoppingAtAPage` | rac/rac_play.c:491-491 | a player that stops where a page ends hears everything if and only if nothing audible follows |
| `OggRecord.RecordAndPlay` | rac/rac_play.c:480-571 | recorder and player in turn, with any part of the file peeked at first, give back the non-empty frames |
| `OggRecord.PagesAreNumbered` | rac/rac_record.c:324-348 | pages are numbered without gaps and the end-of-stream flag is on the last page and no other, unless the last frame is empty |
| `OggRecord.GranulesCount` | rac/rac_record.c:324-334 | with no frame empty, page k of the audio ends at sample 960 k and holds frame k |
| `OggRecord.LacingWalk` | rac/rac_play.c:536-554 | the segment table of one packet, walked, gives that packet |
| `Stanza.FirstWord` | rcd/rcd_network.c:84-95 | the first word of a line, 31 characters at most, and what follows it |
| `StanzaReader.StanzaGet` | rcd/rcd_network.c:113-162 | of the file with every line longer than 511 characters broken, the last line of the first stanza that names the directive gives its value; the method comes from the iface line |
| `StanzaReader.BrokenIff` | rcd/rcd_network.c:126-127 | nothing is broken if and only if no line is longer than 511 characters |
| `StanzaReader.ReaderLaws` | rcd/rcd_network.c:113-270 | in such a file what was written is what the reader finds, and it finds everything else as before |
| `Stanza.StanzaSet` | rcd/rcd_network.c:173-270 | refuses what it does not own or what is too large, else gives the text with that directive of the first stanza rewritten |
| `Stanza.MethodSet` | rcd/rcd_network.c:274-328 | gives the text with the method of the first iface line of three words replaced, or refuses |
| `Stanza.GetSet` | rcd/rcd_network.c:113-270 | a directive written reads as its value, or as absent when the value is empty, if and only if the file has an iface line |
| `Stanza.CleanIffPlain` | rcd/rcd_network.c:151-157 | a value reads back as itself if and only if it is short enough, does not begin with a blank and holds no line end |
| `Stanza.GetOther` | rcd/rcd_network.c:113-270 | every other directive and the method read as before |
| `Stanza.OthersStay` | rcd/rcd_network.c:205-243 | all other lines keep their order, and later stanzas are not touched |
| `Stanza.SetTwice` | rcd/rcd_network.c:205-246 | of two writes the last wins |
| `Stanza.LensLaws` | rcd/rcd_network.c:113-270 | the get and put laws on whole texts, blank lines included |
| `Stanza.SetTextTwice` | rcd/rcd_network.c:173-270 | writing the same value again changes nothing |
| `Stanza.OutputFits` | rcd/rcd_network.c:199-246 | the output with its terminator fits the input's length plus 256 |
| `Stanza.MethodFits` | rcd/rcd_network.c:286-306 | the output of a method write, with its terminator, fits the input's length plus 64, for methods of up to sixty characters; there are two, of six at most |
| `Stanza.MethodGetSet` | rcd/rcd_network.c:274-328 | the method written is the one read if the first iface line has three words and no line of the stanza says otherwise; if it has not, the method reads as before |
| `Stanza.MethodGetOther` | rcd/rcd_network.c:274-328 | setting the method leaves every directive as it reads |
| `DayNight.Ric.constructor` | ric/ric_main.c:662-669 | start-up drives the lights to the mode it is given, begins a cooldown and has nothing else in flight |
| `DayNight.Ric.DriveEnabled` | ric/ric_daynight.c:342-352 | drives the enabled banks that have a pin, and no other |
| `DayNight.Ric.SetMode` | ric/ric_daynight.c:469-493 | a change of mode moves the lights, clears the counters and starts the cooldown; the same mode changes nothing |
| `DayNight.Ric.ForceMode` | ric/ric_daynight.c:399-408 | a forced mode drives the enabled lights even when it is the mode already, and changes nothing else then |
| `DayNight.Ric.Enable` | ric/ric_main.c:403-420 | a bank enabled or disabled by night follows at once, by day it waits, and the rest of the state stays |
| `DayNight.Ric.Rearm` | ric/ric_daynight.c:442-467 | everything in flight is forgotten, and by night the lights come back |
| `DayNight.Ric.Debounce` | ric/ric_daynight.c:500-531 | the mode changes exactly when the last hysteresis_sec evaluated polls since it was entered all agreed |
| `DayNight.TrailingIsLastAgree` | ric/ric_daynight.c:500-531 | the counter has reached n if and only if the last n votes agree |
| `DayNight.Ric.Settle` | ric/ric_daynight.c:654-695 | a night's baseline is adopted only after three consecutive readings within two percent, or with the extensions used up, or where nothing is reported; else one more poll is waited |
| `DayNight.Ric.VerifyDay` | ric/ric_daynight.c:629-652 | a day that reads dark without the light is taken back and locked out, each time twice as long up to 300 polls |
| `DayNight.Ric.CooldownPoll` | ric/ric_daynight.c:624-706 | a night's cooldown ends within 3 + 17 polls with a baseline so backed; by day it only counts down, and verifies at its end |
| `DayNightRuns.CoolDown` | ric/ric_daynight.c:624-706 | through polls that bring something a night's cooldown ends by the twentieth of them, with the last reading as its baseline and nothing else changed |
| `DayNight.Ric.LumaWants` | ric/ric_daynight.c:711-762 | what luma and gain vote, and the baseline only a reading without a probe can raise |
| `DayNight.Ric.ProbeDue` | ric/ric_daynight.c:785-817 | a probe begins if and only if the recheck interval ends, or outside the holdoff this poll and the last two watched polls since the last probe dipped |
| `DayNight.DipsOfTwoNights` | ric/ric_daynight.c:469-493 | these dips need not be of one night: two of one and the first of the next begin a probe |
| `DayNight.Ric.Probe` | ric/ric_daynight.c:772-867 | a probe lifts the lights, suppresses three polls, judges hysteresis + 2 polls and puts the lights back with a fresh cooldown |
| `DayNight.Ric.LumaJudges` | ric/ric_daynight.c:711-872 | readings, probe and lockout together vote as `LumaVote` says, a settling probe and a lockout vetoing the day, and leave the state `Judged` |
| `DayNight.Ric.LumaPoll` | ric/ric_daynight.c:711-904 | an evaluated poll adds that vote to that state, and turns it exactly on an agreed run |
| `DayNight.TurnsOnAgreement` | ric/ric_daynight.c:500-531 | an evaluated poll changes the mode if and only if it and the last hysteresis_sec - 1 before it voted for that |
| `DayNight.Ric.Poll` | ric/ric_daynight.c:541-905 | every poll keeps the invariant (by day enabled lights are off, by night without a probe they are on, the counters are the runs of votes and dips) and says the whole new state: of an evaluated poll of any trigger, of one in a cooldown, and of one that brings nothing; a probe begins only when it is due |
| `DayNightRuns.Operate` | ric/ric_daynight.c:733-748 | over any run of calls luma is trusted only while no enabled light shines, if and only if no call forces the night while a probe is marked, enables a bank during one, or fails the verification of a day found by one |
| `DayNightRuns.ProbeBeginsIff` | ric/ric_daynight.c:772-849 | an evaluated poll of a quiet night begins a probe if and only if it may and is due |
| `DayNightRuns.ProbeOut` | ric/ric_daynight.c:826-849 | a probe ends, by a day or by the lights coming on again, within PROBE_SETTLE + hysteresis + 3 polls that bring something |
| `DayNightRuns.ForcedNightRun` | ric/ric_daynight.c:399-408 | a run from start-up: settle, interval recheck, forced night; the lights are on and luma is trusted |
| `DayNightRuns.BankEnabledRun` | ric/ric_main.c:403-420 | a run from start-up in which a bank is enabled during a probe, with the same end |
| `DayNightRuns.TakenBackRun` | ric/ric_daynight.c:629-653 | a run from start-up in which a probe finds a day that fails its verification, with the same end |

## Left out

- Hardware, kernel and library calls (HAL and SDK, GPIO, ADC, sockets, epoll, TLS, cJSON, ring buffers): their results are parameters, or sets of operations that fail.
- HTTP routing, the portal, password hashing, time zones, help texts and state reports: they would add only easy members.
- rcd keys that live in the configuration file rather than with a provider, and the restart of other daemons: the guard does not cover them.
- The photo trigger of ric, live changes of its numeric settings, the sensor frame rate, the gain noted at nightfall, and the bench verbs that drive a light or the filter by hand (one of them lights a bank during a probe as well).
- SPS fields beyond the bit reader, codec detection, and the NAL type code stored with a frame: long but shallow.
- G.711, ADTS, AAC and MP3: tables or decoders that are not part of the source.
- The fallback of the name server's reader to /etc/resolv.conf, and emptying the dhcp key, which writes `dhcp`.
- Clock.RadClock.Stamp: times are unbounded integers, so overflow of 64-bit microseconds is not modelled.
- AuthRate.RateLimiter.Failed: the failure counter is unbounded, so its 32-bit wrap-around is not modelled.
- FrameSharing.FramesAreSafe: atomic reference counts are steps of one machine; weaker memory orders are not modelled. A request handled again is one step between locked sections: clearing a mutex another thread holds, the destroyed mutex after a thread could not be created, and the client's memory that a thread left behind still uses are not modelled.
- GuardCrash.InForceAfterRestart: a failure falls between two writes or two enacts; one inside a write, and a torn file, are not modelled.
- GuardDaemon.Rcd.Load: the record and the marker are values, so a torn or hand-edited file is not modelled.
- Mp4.ToAnnexB: what the source does once it has overstepped is one outcome, `Overrun`, because C leaves it undefined; the check that the sample lies in the file is not modelled.
- Mp4.ScratchSuffices: the size of the scratch is unbounded, so its own 32-bit wrap-around for samples of 2 GB and more is not modelled.
- Bits.BitReader.Ue: 32 leading zeros make the source shift a 32-bit word by 32, which C leaves undefined; the model gives the mathematical value.
- FrameIndex.ScanFrames: file offsets are unbounded, so files of 4 GB and more, whose offsets the source cuts to 32 bits, are not modelled; the frames are a sequence instead of a preallocated array.
- OggPage.WritePage: what the source does once it has written past its table of 255 segments is one outcome, no file, because C leaves it undefined.
- OggCrc.CrcInit: the generator is a parameter; the source's is 0x04C11DB7.
- OggPlay.Play: the buffer is a sequence cut at its front, so the moves of its bytes are not modelled; the stop signal is not either.
- StanzaReader.StanzaGet: the newline kept at a piece's end, which ends every word and value, is not modelled.
- Stanza.StanzaSet: failures to read, write or rename the file are not modelled; NUL bytes are not either.
- DayNight.Ric.LumaWants: products of a baseline and a percentage are unbounded, so their 32-bit wrap-around is not modelled.
