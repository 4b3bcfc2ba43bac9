# Verified models of the arm's control, measurement and tooling logic

This project models, in Dafny, the parts of the repository whose correctness rests on state,
timing or arithmetic, and proves what each of them promises. Each module states the behaviour of
one component twice where that helps: as the imperative code is written, with the fields it
updates, and as the definition the code is meant to agree with. Times, torques and angles are
reals; integers are unbounded and every wrap-around the code relies on is written out.
`dafny verify dfyconfig.toml` checks everything.

| file | component |
|---|---|
| `Timeline.dfy` | the clock event device's reconstruction, its hardware, and the late-service classification |
| `Anchors.dfy` | anchor alignment between two trace instances, and TSC interpolation |
| `Lifetimes.dfy` | timer armings followed to their ends, and the attribution of deadline writes |
| `ControlTable.dfy`, `ParameterLoader.dfy` | servo registers, a bus that loses requests and replies, the transactional loader |
| `IdentSchedule.dfy`, `IdentRun.dfy`, `IdentWindow.dfy`, `IdentRules.dfy`, `IdentAdmission.dfy`, `IdentController.dfy` | the stepped-sine identification run: budget, state machine, what a completed measurement took, how dwells are started and retried, its guarantees, the controller object |
| `LeastSquares.dfy`, `BlockDemod.dfy` | the 4x4 fit by pivoted elimination, and the one-period blocks it is applied to |
| `Sha256.dfy`, `ImportClosure.dfy` | streaming SHA-256 against FIPS 180-4 and what its constants are, safe relative paths, import lines and their worklist |
| `FollowRun.dfy` | the trajectory-following run: where its commands come from, what samples it sends and when it stops |
| `LatencyPipeline.dfy` | the command delay queue, its run-time monitor, and the two composed |
| `HoldProtocol.dfy`, `PingProtocol.dfy` | the latency-timer hold diagnostic with its cleanup, and the ping packets it sends and classifies |
| `TraceAccounting.dfy` | where a work item's delay went, and which wake ended which sleep |
| `JsonWriter.dfy` | the JSON printer and an RFC 8259 parser |
| `Sorting.dfy` | stable sorting, bisection, and the laws of products and quotients one at a time |

How the environment enters:

- The servo bus, the latency adapter and the arm are objects whose every call takes its outcome
  from an arbitrary function of the call's number (`fate`), so each theorem holds for every
  pattern of failures. A failing call may or may not have taken effect.
- The TSC-deadline timer is a relation between hardware states: it fires at its deadline, latches
  one interrupt that may merge several causes, and may deliver it after a newer write. An
  interrupt is traced up to `lag` after it was accepted. `Separated` is the side condition under
  which an uncertain conversion still names the right deadline. `ClearOfIsNeeded` shows that no
  part of it can be weakened and `UncertainServiceCanMislead` gives a trace for each of its three
  ways to fail; with interrupts traced as they are accepted and the trace's own deadlines inside
  the anchors and exactly converted, none is needed (`ExactAnchorsNameTheSource`).
- The identification run is given each cycle's time, fault, gate, saturation and convergence
  results, torque headroom and sine and cosine values as inputs. `IdentMachine` is the machine as a
  function; `IdentController.IdentRun` is the object, each of whose methods is proved to do
  what that function says, and whose whole run, `RunCycles`, is proved to keep its promises. `LeastSquares` and `Demodulation` model the fits themselves.
- A probe phase is counted in turns, so a period is 1.
- The signal handlers of the hold diagnostic appear as interrupts before or after any call.

Where the code and its text disagree, the model follows the code:

- `LaggedArm` in its legacy start stamps the first submission's first application anew when it
  applies it a second time (`apps/common/lagged_arm.hpp:119-131`), although
  `include/rtctrl/arm/types.hpp:44-50` keeps the first application across retransmissions.
  `FirstTimeKeptIff` says exactly when the record's first time is right, and `TwoLegacyWrites`
  shows it wrong.
- A second soft event does not always abort: with a probe torque of exactly zero `enterKill` drops
  the request. `SecondSoftEventAborts` gives the exact condition, and `SecondSoftEventCanPass` a
  run from its start that ends completed with two soft events on its dwell.
- A recorder that ended early can leave status 0: the check that fails the run is skipped if the
  first cleanup had already set status 3, and a successful second cleanup then reports 0
  (`tools/latency_hold.py:585-599`). `Session` states exactly when, and
  `LateRestoreHidesTheRecorder` runs such a session.
- An aborted following run that nobody attends ends as an operator timeout, whatever aborted it
  (`apps/follow/follow_run.hpp:533-536`). `HoldAt` states exactly when the status is replaced, and
  `Run` what that means for a whole run.
- The JSON writer escapes no control character but the newline: `RoundTrip` is exact about it, and
  `TabIsLost` shows a string it loses.

## Model

| member | source | states |
|---|---|---|
| Timeline.MarksInOrder | tools/timer_service.py:462-463 | sorting the interrupts and writes loses none, invents none and puts an interrupt before a write of the same time |
| Timeline.Timeline.constructor | tools/timer_service.py:460-489 | the compressed list of states answers every time as a naive replay of all earlier events does |
| Timeline.NaiveAtPrefix | tools/timer_service.py:491-494 | the state just before a time depends on exactly the events before it |
| Timeline.TracksOneMore | tools/timer_service.py:464-489 | recording only the changed states keeps every lookup right as an event is added |
| Timeline.PendingMeaning | tools/timer_service.py:465-489 | an earlier generation is shown pending exactly when a write since the last interrupt replaced one that may have fired |
| Timeline.KindMeaning | tools/timer_service.py:465-489 | armed, served, disarmed and unknown are characterised by the last write and the interrupts after it |
| Timeline.ReplayAgrees | tools/timer_service.py:428-489 | every hardware run that explains the trace stays within what the reconstructed device says |
| Timeline.ArmedNamesTheSource | tools/timer_service.py:442-494 | a device shown armed with nothing pending just before an interrupt names that interrupt's only source in every hardware run |
| Timeline.ExactConversionIsSeparated | tools/timer_service.py:442-494 | an exact conversion of the deadlines the trace writes, with interrupts traced as accepted, meets the side condition by itself |
| Timeline.ExactlyArmedNamesTheSource | tools/timer_service.py:442-494 | with the trace's deadlines exactly converted, a device shown armed with nothing pending names the interrupt's only source, with no side condition |
| AnchoredTimeline.ExactAnchorsNameTheSource | tools/timer_service.py:384-494 | the same of the conversion through anchors, for a trace whose deadlines all lie inside them |
| Timeline.ClearOfIsNeeded | tools/timer_service.py:475-489 | wherever the side condition fails at an interrupt, an accurate deadline and a hardware step exist after which the device no longer agrees with the hardware |
| Timeline.UncertainServiceCanMislead | tools/timer_service.py:475-489 | for each way the side condition can fail (uncertainty, late tracing, a deadline outside the anchors) a concrete trace and hardware run where the wrong deadline is named |
| Timeline.ClassifyBlamesTheSource | tools/timer_service.py:552-651 | a deadline blamed by the classification raised the serving interrupt in every hardware run, and was truly late or on time as said |
| Timeline.ClassifyExact | tools/timer_service.py:552-651 | each class exactly when its condition holds, the bounds written out: on time below 50 us, a late sleep call or arming by its time, indeterminate exactly when no interrupt before the entry tells its deadline, else the deadline named, late itself or its interrupt late, from idle or busy by the last idle transition |
| Timeline.LateServiceNamesTheSource | tools/timer_service.py:568-651 | a late service that neither its call nor its arming explains, with an interrupt before it that tells, always names the write that raised that interrupt in every hardware run, and says the deadline was late exactly when it was due or written more than U late |
| Anchors.FindPlaces | tools/timer_service.py:325-331 | all the places where the instance's first intervals match, in order |
| Anchors.WhyExact | tools/timer_service.py:339-355 | a disagreement is refused for the first of the conditions on the stamps that fails, each written out, and accepted exactly when it is an isolated suspect far from the last |
| Anchors.Scan | tools/timer_service.py:333-378 | the scan pairs or sets aside every anchor, or stops at a disagreement for a reason that holds of the stamps themselves: near another means near the suspect found last, and a count of too many is the count of those found |
| Anchors.MatchAnchors | tools/timer_service.py:290-381 | without a problem every anchor is paired at the one offset or an isolated suspect, suspects lie apart and are few; each problem reported holds; if one place matches and some set of isolated anchors, more than 50 apart and at most 0.1 %, explains every disagreement there, no problem is reported and exactly those are the suspects, and only then |
| Anchors.MatchedChained | tools/timer_service.py:359-378 | successive pairs agree within 2 us and 1e-4 of their interval, across a suspect too |
| Anchors.DriftBounded | tools/timer_service.py:319-323 | between any two pairs the clocks drift apart by no more than the added allowances |
| Anchors.ForwardTravel | tools/timer_service.py:319-323 | with a forward counter the added way is the interval itself, so the drift bound is in terms of the elapsed time |
| TscConversion.Build | tools/timer_service.py:387-389 | the anchors in Python's order of pairs, none lost or added |
| TscConversion.ThroughAnchors | tools/timer_service.py:394-402 | the conversion passes through every anchor |
| TscConversion.ConversionMonotone | tools/timer_service.py:394-402 | monotone anchors make a monotone conversion |
| TscConversion.ConversionBetween | tools/timer_service.py:394-402 | a converted value lies between the stamps of any anchors around it |
| TscConversion.KeepsRate | tools/timer_service.py:394-402 | between any two values it converts, the map over agreeing anchors keeps to the sampler's rate within the allowances of the intervals they span |
| TscConversion.MatchedMapKeepsRate | tools/timer_service.py:387-402 | the map built from anchors matched without a problem has that rate between any two values it converts |
| Lifetimes.ValuesComplete | tools/timer_service.py:657-674 | an expiry converts exactly when every clock it may be on reads it at some monotonic time, and to exactly those times, a clock's reading being the monotonic time plus its offset |
| Lifetimes.Group | tools/timer_service.py:693-699 | each timer's events, complete and in the order they came |
| Lifetimes.Lives | tools/timer_service.py:691-730 | every arming is followed, each start event as often as it came, ends at its timer's next event, has the residency and the clocks' readings the trace shows, and is never pending together with another of its timer |
| Lifetimes.GensEndNext | tools/timer_service.py:708-721 | no event of the timer comes between an arming and its end |
| Lifetimes.GensApart | tools/timer_service.py:708-721 | armings of one timer do not overlap |
| Attribution.SweepIsNaive | tools/timer_service.py:753-765 | the set the sweep keeps is exactly the armings with start <= t < end |
| Attribution.Weigh | tools/timer_service.py:776-788 | the pending armings are counted by how they bear on a deadline |
| Attribution.Attribute | tools/timer_service.py:744-801 | each write is judged by the armings pending at it by definition |
| Attribution.NamedIsTheOne | tools/timer_service.py:777-796 | a timer named is the only pending one at that expiry on the real-time CPU, with no matching one unknown and none unconverted |
| Attribution.AttributeTrace | tools/timer_service.py:691-801 | from the trace's events to the verdicts: a write named for an arming has that arming's timer live at the write, shown on the real-time CPU and due within U, and no other timer's arming that could be meant |
| ControlTable.Ascending | apps/bus/dxl_parameters.hpp:43-79 | the table's registers lie in address order and do not overlap |
| ControlTable.ReadbackExact | apps/bus/dxl_parameters.hpp:131-172 | a value written reads back unchanged exactly when it fits its register |
| ControlTable.KeptBytes | apps/bus/dxl_parameters.hpp:148-158 | the bytes sent hold the low bytes of the value's word |
| ParameterLoader.ReadParameter | apps/bus/dxl_parameters.hpp:131-146 | a value read is the register's, and a failure means a lost exchange |
| ParameterLoader.WriteParameter | apps/bus/dxl_parameters.hpp:148-172 | a verified write leaves exactly its value; any write changes only its register and, for the mode, what that resets; it issues one write request, and fails only over a lost exchange or a value that does not fit |
| ParameterLoader.PreflightMotor | apps/bus/dxl_parameters.hpp:391-534 | a motor's checks and plan, without a write: it fails only for a lost exchange or a motor the dump may not be applied to, for a reason that is so; otherwise it takes exactly the transactions the checks need |
| ParameterLoader.PlanIsWellPlanned | apps/bus/dxl_parameters.hpp:518-537 | a plan writes each register once, its mode before what the mode resets, and includes all of that |
| ParameterLoader.RestoredEntirely | apps/bus/dxl_parameters.hpp:544-556 | once every original is back, no register of any servo differs |
| ParameterLoader.PlanCarriesOut | apps/bus/dxl_parameters.hpp:518-563 | once every planned value is reached, the dump is carried out and every other register is as before |
| ParameterLoader.EveryRequestCounted | apps/bus/dxl_parameters.hpp:446-465 | of the requests accepted each is either held already and counted unchanged, or planned |
| ParameterLoader.Preflight | apps/bus/dxl_parameters.hpp:384-537 | every motor is checked before any write, and the plan is that of all motors; the values counted as held already are those of the motors before an error and the failing motor's requests up to it |
| ParameterLoader.Rollback | apps/bus/dxl_parameters.hpp:544-556 | every original is rewritten in plan order whatever fails, one request each; there are no more errors than lost exchanges, each about a planned operation, and an original not reached is among them; without an error every register is as before |
| ParameterLoader.Apply | apps/bus/dxl_parameters.hpp:384-563 | success carries the dump out and changes nothing else; a good rollback changes nothing at all, and there are no more errors than lost exchanges; the write requests sent are the plan's up to the failure and then all the originals; a preflight failure is justified and issued no write; without losses an applicable dump succeeds |
| IdentSchedule.BuiltAmplitudesWithin | apps/ident/ident_common.hpp:261-274 | every scheduled amplitude lies between the floor and the cap |
| IdentSchedule.BuiltNearestAsked | apps/ident/ident_common.hpp:129-205 | a dwell's amplitude is the override, or the torque for a 5 mrad response, or what the floor and the cap allow nearest to it; its window is four-fold exactly when even the cap moves the joint by less than three window floors |
| IdentSchedule.BudgetFromStart | apps/ident/ident_common.hpp:302-314 | the budget before activation is the one kept from the first dwell on, with its tenth and the setup allowance |
| IdentSchedule.WorstSplits | apps/ident/ident_common.hpp:296-314 | what is spent before a dwell and what is left from it add up to the whole budget |
| IdentMachine.ProbeWithinCap | apps/ident/ident_common.hpp:1277-1281 | after every cycle of every run the probe is within the cap, and zero in every phase without a probe and after a hard fault |
| IdentMachine.CleanFinishSettlesEveryDwell | apps/ident/ident_common.hpp:1204-1268 | at a clean finish every scheduled dwell was started or skipped |
| IdentMachine.TerminalForever | apps/ident/ident_common.hpp:955-972 | a finished or hard-faulted run stays so |
| IdentMachine.TerminalPastTheBound | apps/ident/ident_common.hpp:950-972 | whatever the faults, events and samples, no run goes on past the stop time by 1.55 s and two cycles |
| IdentMachine.TerminatesByTheBound | apps/ident/ident_common.hpp:107-117 | a run ends within 1.55 s and three cycles of the stop time, before the watchdog when cycles are below 0.15 s |
| IdentMachine.SecondSoftEventAborts | apps/ident/ident_common.hpp:1319-1348 | a second soft event on a dwell schedules the abort exactly when the probe is nonzero |
| IdentMachine.SecondSoftEventCanPass | apps/ident/ident_common.hpp:1319-1348 | a run from its start in which a dwell's second soft event meets a zero probe: it settles again and ends completed |
| IdentMachine.ScheduledAbortEndsRun | apps/ident/ident_common.hpp:1215-1236 | a scheduled abort ends the run at the end of the kill ramp |
| IdentRules.RunKeepsRules | apps/ident/ident_common.hpp:1319-1410 | along every run, a dwell is tried at most twice, again only after a soft event, 2 s of quiet and if it still fits, from phase zero and at half its amplitude; a new dwell is the first that the torque allows, at its amplitude or the headroom, with the longer window exactly when asked for and still fitting |
| IdentRules.CaptureStarts | apps/ident/ident_common.hpp:661-690 | the capture ramp takes 37.5 s a radian of deviation, within 1 to 5 s, and is refused exactly from beyond the envelope |
| IdentRules.CaptureExact | apps/ident/ident_common.hpp:976-1065 | a cycle ends the capture exactly when half a second past the ramp the quiet time reaches 0.3 s, and gives up exactly at ten |
| IdentRules.CaptureWaited | apps/ident/ident_common.hpp:976-1065 | along every run the capture is left only when every cycle of the last 0.3 s found the arm ready |
| IdentRules.HoldDiagExact | apps/ident/ident_common.hpp:1066-1110 | the hold diagnostic fails exactly on a deviation, or movement after its first second, and completes exactly when it lasted as long as asked |
| IdentWindow.CompletedIsMeasured | apps/ident/ident_common.hpp:1155-1202 | along every run, a dwell is completed only by a window whose samples made the periods asked for times the window's multiple, each a whole turn of the probe with at least five samples and a solved fit, after a hold of at least the minimum, and below its maximum only on convergence |
| IdentWindow.PeriodsRoundUp | apps/ident/ident_common.hpp:286-289 | the periods asked for are the fewest not below ten and three per hertz, to 1e-9 |
| IdentWindow.SoftEventCounted | apps/ident/ident_common.hpp:1319-1333 | while the probe ramps in, holds or measures, a soft event is counted exactly when the response fired one or five cycles clipped before, and then the probe is removed |
| IdentAdmission.SlackCoversOvershoot | apps/ident/ident_common.hpp:302-314 | the budget's slack covers every phase's overshoot of a cycle |
| IdentAdmission.WindowEnds | apps/ident/ident_common.hpp:392-410 | a window's block count is complete within a cycle of its nominal length |
| IdentAdmission.AcceptedScheduleCompletes | apps/ident/ident_common.hpp:278-314 | an accepted schedule with an uneventful run is never refused or stopped and ends completed with every dwell measured in full or skipped; with amplitudes and headroom at or above the floor every dwell is measured and none skipped |
| IdentController.IdentRun.StartDwell | apps/ident/ident_common.hpp:1350-1405 | starting, skipping or refusing a dwell is the machine's step |
| IdentController.IdentRun.Advance | apps/ident/ident_common.hpp:955-1270 | one cycle of the dwell machine is the machine's step |
| IdentController.IdentRun.Cycle | apps/ident/ident_common.hpp:660-785 | the update and the observation of a cycle are the machine's |
| IdentController.IdentRun.RunCycles | include/rtctrl/arm/runner.hpp:152-198 | the object's whole run: every torque sent keeps the cap and is zero without a probe; it is over within 1.55 s and three cycles of the stop time; a clean finish has every dwell started or skipped; every dwell completed was measured in full, and every cycle keeps the rules for starting and retrying dwells; an accepted schedule with nothing amiss ends completed |
| LinearSystem.EliminationKeepsSolutions | apps/ident/ident_common.hpp:361-364 | subtracting a multiple of one equation from another keeps exactly the same solutions |
| LinearSystem.TriangularUnique | apps/ident/ident_common.hpp:366-371 | a triangular system has its back-substituted values as its only solution |
| LeastSquares.ModelSolvesNormalEquations | apps/ident/ident_common.hpp:337-343 | samples exactly on the model satisfy the normal equations with its amounts, whatever their weights |
| LeastSquares.FindPivot | apps/ident/ident_common.hpp:355-358 | the pivot is the first of the largest entries of its column |
| LeastSquares.Triangularize | apps/ident/ident_common.hpp:354-365 | elimination in place keeps the solutions and clears below the diagonal; it fails only where a vector ending in a one leaves every equation's left-hand side within 1e-15 of zero, and succeeds only where none leaves them all within an eighth of that |
| LeastSquares.SubstituteBack | apps/ident/ident_common.hpp:366-371 | back substitution finds the one solution |
| LeastSquares.LsAccum.Add | apps/ident/ident_common.hpp:337-344 | the accumulated moments are those of all the samples |
| LeastSquares.LsAccum.Solve | apps/ident/ident_common.hpp:346-374 | a successful fit is the unique solution, and returns the sine and cosine amounts of samples on the model exactly; a fit fails only when the normal equations nearly annihilate a vector with an entry of one, and always when they do so eight times as nearly |
| Demodulation.EverySampleOnce | apps/ident/ident_common.hpp:392-410 | no sample is lost, repeated or reordered by the blocks |
| Demodulation.BlocksAreTurns | apps/ident/ident_common.hpp:385-410 | with steps below a turn, block b holds exactly the samples of turn b, half-open |
| Demodulation.BlockDemod.Add | apps/ident/ident_common.hpp:392-410 | a block just closed is reported exactly when it has five samples and its fit succeeds, which it may fail only as a fit may; the estimate is its own exact fit, and the object advances as the run's record of it does |
| Sha256Standard.FewestZeros | apps/plan/ptp_bundle.cpp:145-152 | the padding has the fewest zeros that leave the length at the end of a block (FIPS 180-4, section 5.1.1) |
| Sha256Standard.BigEndianValue | apps/plan/ptp_bundle.cpp:153-156 | the length field holds the bit count |
| Sha256Standard.PaddingInjective | apps/plan/ptp_bundle.cpp:145-157 | different messages have different paddings |
| Sha256Standard.HashBlocksSplit | apps/plan/ptp_bundle.cpp:128-142 | hashing blocks in two goes is hashing them in one |
| Sha256Meaning.ConstantsAreRoots | apps/plan/ptp_bundle.cpp:171-187 | the round constants and the initial hash value are the first 32 bits of the fractional parts of the primes' cube and square roots (FIPS 180-4, sections 4.2.2 and 5.3.3) |
| Sha256Meaning.BigSigmaBits | apps/plan/ptp_bundle.cpp:214-220 | each bit of the two big sigmas is the parity of the three bits of their rotations (section 4.1.2) |
| Sha256Meaning.SmallSigmaBits | apps/plan/ptp_bundle.cpp:196-201 | the same of the small sigmas, whose shifted bit is missing at the top |
| Sha256Meaning.ChoiceWords | apps/plan/ptp_bundle.cpp:216 | choice is its second word where the first has ones and its third elsewhere |
| Sha256Meaning.MajorityWords | apps/plan/ptp_bundle.cpp:221 | where two words agree majority is what they agree on, and elsewhere the third decides |
| Sha256Stream.Expand | apps/plan/ptp_bundle.cpp:188-203 | the words array is the standard's message schedule (section 6.2.2) |
| Sha256Stream.Sha256.Transform | apps/plan/ptp_bundle.cpp:170-240 | the eight rotating variables follow the standard's rounds, and give its next hash value |
| Sha256Stream.Sha256.Update | apps/plan/ptp_bundle.cpp:128-142 | any chunk is taken in whole, over block boundaries |
| Sha256Stream.Sha256.Finish | apps/plan/ptp_bundle.cpp:144-163 | the digest is the standard's of everything fed, below 2^61 bytes |
| Sha256Stream.HashChunks | apps/plan/ptp_bundle.cpp:250-262 | a file read in chunks of any sizes hashes to the standard's digest of its bytes |
| Sha256Stream.HexDigestInjective | apps/plan/ptp_bundle.cpp:159-162 | equal hexadecimal digests mean equal hash values |
| RelativePaths.SafeIffStaysWithin | apps/plan/ptp_bundle.cpp:50-56 | a path is safe exactly when it is relative, has names and never climbs out on its way |
| RelativePaths.NormalStable | apps/plan/ptp_bundle.cpp:114-118 | normalizing a safe path again changes nothing |
| RelativePaths.SplitJoins | apps/plan/ptp_bundle.cpp:114 | a path's names hold no separator, and with separators between them are the path as written |
| ImportClosure.ImportedIff | apps/plan/ptp_bundle.cpp:102-109 | a line imports a name exactly when it is blanks, the keyword, whitespace, and the name bare up to whitespace or in quotes with backslashes |
| ImportClosure.QuotedIsReadBack | apps/plan/ptp_bundle.cpp:107-109 | any name, quoted with its quotes and backslashes escaped, is read back as it was, whatever follows it |
| ImportClosure.Scan | apps/plan/ptp_bundle.cpp:96-120 | a file's imports are added, or an import of it that is empty or not portable fails |
| ImportClosure.CopyModelDependencies | apps/plan/ptp_bundle.cpp:71-122 | succeeds exactly when every file needed is fine, and then copies the least set closed under import, all safe, each once; a failure names a file needed and a reason that is so; it ends on cyclic imports |
| FollowTrace.HookOnce | apps/follow/follow_run.hpp:282-290 | the tracking hook is called exactly once if a tracking feedback was read, else never |
| FollowTrace.HoldFixed | apps/follow/follow_run.hpp:492-503 | the posture held after an abort never changes |
| FollowTrace.CorrectionSteps | apps/follow/follow_run.hpp:411-427 | correction goals stay within 0.15 of home and move by at most 0.05 |
| FollowTrace.PostureRunCommands | apps/follow/follow_run.hpp:478-482 | in a posture run a tracking command is the reference, in answer to a feedback read in its own tracking cycle since the command before and within the abort error; all else is the reference's end or a posture measured |
| FollowSamples.SamplesSpread | apps/follow/follow_run.hpp:441-447 | the samples of a motion begin at zero and end at its duration, each at most a cycle after the one before |
| FollowSamples.CyclesAreFewest | apps/follow/follow_run.hpp:441-442 | the cycles of a duration are the fewest that last as long |
| FollowSamples.HomeIsFirstSample | apps/follow/follow_run.hpp:193 | home is the reference's first sample |
| FollowSamples.HomeSlowEnough | apps/follow/follow_run.hpp:345-366 | on the way home no joint is asked for more than the speed limit at its peak |
| FollowRun.CorrectGoal | apps/follow/follow_run.hpp:411-416 | the offsets move in place by clamped steps within clamped bounds |
| FollowRun.Follower.Acquire | apps/follow/follow_run.hpp:282-290 | a cycle's feedback is stored, and the hook called at the first tracking one |
| FollowRun.Follower.PostureCycle | apps/follow/follow_run.hpp:478-482 | the reference is commanded only from a feedback near it |
| FollowRun.Follower.TrackReference | apps/follow/follow_run.hpp:440-487 | the tracking commands are exactly the reference's samples in order, all of them on success and a prefix otherwise; it stops with a tracking error exactly when the feedback last stored departs from the next sample by the immediate limit, or by the sustained one for as long as allowed; a posture run stops short with the departing feedback kept |
| FollowRun.Follower.MoveHome | apps/follow/follow_run.hpp:399-438 | the commands home are the profile's samples from the start, then corrections each settled for its whole time; homing succeeds only within tolerance unless the gate is not strict |
| FollowRun.Follower.Finalize | apps/follow/follow_run.hpp:492-538 | every command is the posture passed as it was at entry, though each cycle overwrites the state it may alias; a hold that waits for the operator times out exactly when nothing fails and nobody presses Enter, after commands for its whole time |
| FollowRun.Follower.HoldAt | apps/follow/follow_run.hpp:492-538 | an abort's status becomes the operator's timeout exactly when its hold waits for the operator and is left unattended without a failure |
| FollowRun.Follower.Run | apps/follow/follow_run.hpp:185-239 | all events of a run are lawful, and every command of a run without a failed call is recorded and stepped; the tracking commands are the reference's samples in order, all of them on success; a tracking error is one exactly when its samples and feedback say so; a posture run whose first reading is outside the start tolerance commands only that reading and is refused, or timed out if its hold is left unattended; only a hold left without Enter times out |
| LaggedPipeline.PreloadedDelay | apps/common/lagged_arm.hpp:41-49 | of any preloaded arm: the k-th write to the inner arm is submission k - delay, and zero current before |
| LaggedPipeline.LegacyDelay | apps/common/lagged_arm.hpp:88-109 | of any arm in the legacy start: the first submission is written twice and every later one a write late |
| LaggedPipeline.FirstTimeKeptIff | apps/common/lagged_arm.hpp:119-131 | the record's first application time is that of its number's first application exactly when the last write taken is no repetition or came at the same time; of a submission it is wrong only after the legacy start's second write |
| LaggedPipeline.TwoLegacyWrites | apps/common/lagged_arm.hpp:88-131 | the legacy start's first two writes, both taken: the record shows the second one's time |
| LaggedPipeline.LaggedArm.WriteCommand | apps/common/lagged_arm.hpp:88-109 | the queue hands on the stream in order and keeps the rest pending |
| LatencyMonitor.LatencyVerifier.Check | apps/common/latency_verifier.hpp:27-75 | the check passes, advances and reports as the monitor's definition |
| LatencyMonitor.CheckExact | apps/common/latency_verifier.hpp:27-75 | a check passes exactly when it honours every accepted submission not seen applied before |
| LatencyMonitor.MonitorSound | apps/common/latency_verifier.hpp:18-27 | while all checks pass, each accepted submission was applied in time and unskipped or is still pending in time, whatever the arm |
| PipelineUnderMonitor.MonitoredRun | apps/common/latency_verifier.hpp:27-75 | a run at a uniform period is accepted exactly when the pipeline's lag in periods is within two nominal periods and a nanosecond |
| PipelineUnderMonitor.PreloadedLag | apps/common/lagged_arm.hpp:41-49 | that lag is the delay, or the run's length if shorter; in the legacy start one cycle from the third on |
| PingProtocol.Crc16 | tools/latency_hold.py:92-99 | the register loop computes the CRC defined byte by byte |
| PingProtocol.CrcDetectsBurst | tools/latency_hold.py:92-99 | messages that differ within two adjacent bytes have different CRCs |
| PingProtocol.IntactIffSealed | tools/latency_hold.py:102-104 | a packet's CRC is good exactly when sealing its body gives it back |
| PingProtocol.NeverEmpty | tools/latency_hold.py:124-133 | an intact packet always has the byte the classification reads next |
| PingProtocol.ReplyIff | tools/latency_hold.py:110-137 | a window is a reply exactly when its first header starts an intact status packet from the servo |
| PingProtocol.PartialIff | tools/latency_hold.py:110-124 | a window has no payload exactly when it is empty and is partial exactly when it holds the start of a packet and no more of it; all else that is no reply is corrupt |
| PingProtocol.EchoIsNotAReply | tools/latency_hold.py:102-137 | the program's own ping, echoed, is not taken for a reply |
| HoldProtocol.Hold.Observe | tools/latency_hold.py:265-279 | a window's verdict is that of all the bytes it received |
| HoldProtocol.Hold.Sequence | tools/latency_hold.py:281-313 | whatever fails, the acts follow the plan from its start; completed, they are all of it with the timer read back at each stage |
| HoldProtocol.Hold.Cleanup | tools/latency_hold.py:315-338 | a cleanup that succeeds ends on a readback of the working value; what it reports having left is what it did |
| HoldProtocol.Hold.Run | tools/latency_hold.py:340-363 | status and debt after the sequence and its cleanup, as its notes account for them, an interrupt of the cleanup escaping; a finished sequence did the whole plan |
| HoldProtocol.Session | tools/latency_hold.py:569-617 | once anything was done the last readback is the working value or the status is nonzero; the status is that of the notes by precedence; it is 0 over a recorder that ended early exactly when the sequence finished, its cleanup failed uninterrupted, the second one succeeded, nothing interrupted and the capture is valid |
| HoldProtocol.LateRestoreHidesTheRecorder | tools/latency_hold.py:585-599 | a concrete session, every call's outcome given, that ends with status 0 and its ended recorder unreported |
| HoldProtocol.AtMostThreePings | tools/latency_hold.py:281-313 | however a run is cut short, at most three pings are attempted |
| HoldProtocol.OnePingAtZero | tools/latency_hold.py:298-312 | at most one ping between setting 0 ms and the return to 1 ms |
| HoldProtocol.QuietAfterZeroPing | tools/latency_hold.py:303-313 | from the 0 ms ping to the end of the window after the switch nothing is written or flushed |
| HoldProtocol.ThreeWholePings | tools/latency_hold.py:252-263 | a finished sequence wrote exactly three pings, each whole |
| KworkerAccount.Sweep | tools/trace_correlate.py:606-613 | the time in each state is the count of nanoseconds in it |
| KworkerAccount.Kworker | tools/trace_correlate.py:569-616 | the account starts at the first run after the last waking, if a switch puts the worker on a CPU by the start, with its migration, else at that waking, else at the queueing in the state the worker was in; the parts are nonnegative and add up to the delay, and each is exactly the time in its state |
| TimerWakes.SleepsDisjoint | tools/trace_correlate.py:365-375 | ordered rows make sleeps that do not overlap |
| TimerWakes.SleepCovers | tools/trace_correlate.py:383-389 | the wakes a sleep passes over are in no sleep at all |
| TimerWakes.CheckTimerWakes | tools/trace_correlate.py:356-408 | every sleep is paired, doubled, begun awake or missing; extra counts the wakes in no sleep; a run that passes pairs its wakes in order, each once |
| TimerWakes.PassedBijection | tools/trace_correlate.py:383-408 | in a run that passes the sleeps paired are exactly those not begun awake |
| JsonPrinter.JsonWriter.Traverse | apps/study/study_metrics.hpp:239-299 | the calls of a tree's traversal add exactly its text, after the comma due |
| JsonPrinter.EscapeAll | apps/study/study_metrics.hpp:300-312 | the loop escapes character by character |
| JsonPrinter.RoundTrip | apps/study/study_metrics.hpp:239-317 | a tree is read back exactly when its strings hold no control character but the newline, else the text is no JSON |
| JsonPrinter.WriteTree | apps/study/study_metrics.hpp:239-317 | the same of a fresh writer's output |
| JsonPrinter.TabIsLost | apps/study/study_metrics.hpp:300-312 | a string with a tab is written as text no parser accepts |

## Left out

- Serial, USB, sysfs, tcpdump and file I/O, command lines, printing and CSV logs: plumbing without an invariant of its own.
- Floating-point rounding and NaN: the models use reals; the velocity filter and position quantization of `LaggedArm.readState` are rounding and are not modelled.
- The controller that `IdentRun` wraps, the reference trajectory, `ptpProgress`, the arm and the simulator: progress is any function into [0, 1], the reference any function of time, the robot any source of feedback.
- Sine, cosine, headroom, capture gates and response monitors of the identification run are inputs of the machine; their per-joint latching and the texts of its notes are not modelled.
- ParameterLoader.Apply: registers hold the values they stand for rather than raw bytes, and parsing and serializing the dump file are not modelled, because they only add field-by-field checks.
- Lifetimes.Lives: the reader's hint of a matching write is not modelled, because it never decides a residency or an attribution.
- Timeline.ClassifyBlamesTheSource: the detail texts of a classification are not modelled.
- TimerWakes.CheckTimerWakes: the A, B and C delays computed from the pairs are not modelled, because they are differences of stamps with no invariant.
- ImportClosure.CopyModelDependencies: symbolic links and a file system changing during the copy are not modelled; a trailing separator is dropped by normalization.
- JsonGrammar parses a number as a run of number characters, so numbers are opaque tokens.
- HoldProtocol.Session: preparing the recorder and opening the port before the sequence are not modelled, because nothing is sent then.
- FollowRun.Follower.Run: velocities, accelerations and effort limits of the commands are not modelled, because the provenance stated is that of the positions; nor is the worst joint it reports.
- Numeric fitting, percentiles, plotting, configuration loading, model porting and bundle writing: one-branch arithmetic or plumbing.
