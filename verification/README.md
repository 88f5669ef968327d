# Motion authority of the robot firmware, verified

The firmware lets several sources ask for motion and lets at most one of them reach a motor at a
time. This project models the code that decides it and proves what it promises, over every run.

| file | what it models |
|---|---|
| `MachineIntegers.dfy`, `Prelude.dfy` | the widths of the C integers, shared helpers |
| `CommandAuthority.dfy`, `CommandAuthorityRuns.dfy`, `CommandAuthorityAnswers.dfy` | prioritised mailboxes with leases, stream and sequence order, barriers |
| `MotionApplication.dfy`, `MotionApplicationRuns.dfy`, `MotionApplicationAnswers.dfy` | the arm / command / stop machine around one authority |
| `MotionService.dfy`, `MotionServiceRuns.dfy`, `MotionFlightRuns.dfy`, `MotionQueueRuns.dfy`, `MotionReleaseRuns.dfy`, `MotionExamples.dfy` | the machine shared between a task and its callers, every interleaving of lock sections; two runs of it |
| `RobotKinematics.dfy`, `RobotProfile.dfy`, `MotionProfile.dfy` | proportional saturation; which profiles are valid; why plans stay inside their limits |
| `RobotCapabilities.dfy`, `ActuationCoordinator.dfy`, `ActuationRuns.dfy`, `ActuationAnswers.dfy` | group actuation with rollback, stop of everything, the lock |
| `RcLanInterlock.dfy`, `RcLanConfirmation.dfy`, `ControlLan.dfy`, `ControlLanRuns.dfy`, `ControlLanAnswers.dfy` | the takeover of the radio and the session behind the network port |
| `PpmMotion.dfy`, `PpmMotionRuns.dfy`, `PpmMotionAnswers.dfy`, `PpmDecoder.dfy` | driving from the radio, decoding of its signal |
| `CalibrationLut.dfy`, `CalibrationTool.dfy`, `IsotonicFit.dfy` | the cyclic calibration table, the tool that makes it, its least-squares fit |
| `PeriodicDeadline.dfy` | deadlines on a clock that wraps around |
| `HilText.dfy`, `HilManifest.dfy`, `HilRunner.dfy`, `HilRuns.dfy`, `HilMotionRuns.dfy`, `HilOutcomes.dfy` | the texts of hardware test programs, which programs are admitted, and their runner under any gateway and any signal |
| `HilExamples.dfy`, `HilExampleRun.dfy` | the velocity program of the repository, and a run of it that goes wrong |

Code that changes fields or arrays in place is a class or a method with loops. Each such method is
proved against a specification function of the same module, which is what the lemmas are about.
Answers from outside (devices, the lock of the actuation, the application behind the network port,
the gateway, clocks, signals) are arbitrary: parameters of the steps, or functions of everything
that was called before. A module whose name ends in `Runs` is about sequences of states and steps of
the module it is named after; one whose name ends in `Answers` tells, without the specification
functions, when each answer is given. `float`, `double` and `long double` are reals; 16-, 32- and 64-bit
integers have their width, with wrap-around and saturation written out.

`dafny verify dfyconfig.toml` checks the project.

## Findings

Where the code does less than its surroundings suggest, the exact condition is proved.

- A STOP dated after the clock of the model is ignored (`MotionServiceRuns.StopAcceptedIff`), also
  when it was published and has already discarded the waiting events.
- ACTIVE can outlive its stream in exactly one way, and the next idle cycle ends it
  (`MotionServiceRuns.OrphanArisesIff`, `MotionServiceRuns.OrphanRecovers`); every configuration has
  such a run (`MotionExamples.OrphanIsReached`).
- After a failed actuation a live stream is locked in FAULT: neither ARM, COMMAND nor the passing of
  time changes that, only a STOP, a DISARM or the recorded success of an APPLY
  (`MotionApplicationRuns.FaultLatches`, reached in `MotionExamples.LatchIsReached`).
- A valid profile may still be unable to start: an endpoint that turns one way only has a symmetric
  limit of zero, which the kinematics refuses (`MotionProfile.StartsIff`, with such a profile in
  `MotionProfile.OneWayRobotCannotStart`).
- A failing optional or unknown endpoint rolls nothing back
  (`ActuationRuns.NoRollbackWithoutARequiredFailure`), and an endpoint that cannot be stopped keeps
  its speed through a rollback (`ActuationRuns.UnstoppableKeepsItsSpeed`).
- An event published while no task is running is refused and stored all the same, for the task that
  starts later (`MotionService.Handle.PublishEvent`).
- Before the interlock has committed anything, a re-read frame that shows the opposite does not
  cancel a candidate (`RcLanInterlock.OppositionCanBeIgnored`, with the exact condition in
  `RcLanInterlock.OppositionCancelsIff`). The receivers read number and channels together
  (`components/robot_safety/robot_safety.c:142-149`); as long as the number names the frame and is
  not zero, this cannot happen (`RcLanInterlock.NothingOpposes`).
- The comment in `components/control_lan/include/control_lan.h:63` calls the revocation epoch
  monotonic; the code wraps it at 2^32 (`RcLanInterlock.EpochCountsTakeovers`).
- A frame that ends exactly at time zero of the 32-bit clock is reported as never received
  (`PpmDecoder.FrameAgeIsRightIff`, with such a run in `PpmDecoder.FrameCanEndAtZero`).
- A hardware test program may call its speed `endpoint_id`, or give it a name with a dot. Both are
  admitted, and then the command does not carry the speed that was checked: it carries the id of the
  endpoint, an attribute of another variable, or cannot be rendered (`HilRuns.SpeedIsRenderedIff`,
  `HilRuns.EndpointIdIsSent`, `HilRuns.UnreadableSpeedIsNeverSent`). The velocity program of the
  repository is admitted under all these names (`HilExamples.EveryNameIsAdmitted`), and has a run in
  which everything is in order and a wrong speed is sent (`HilExampleRun.WrongSpeedIsSent`).
- A signal between the body of a hardware test and its clean-up skips the last stop
  (`HilRuns.UnstoppedIff`); one between opening the port and noting it does so too, but then no step
  has been sent (`HilRuns.LastStopIsSentIff`).

## Model

| member | source | states |
|---|---|---|
| `CommandAuthority.HighestFresh` | `components/command_authority/command_authority_model.c:103-117` | the answer is a source with a fresh mailbox, no fresh mailbox ranks above it, and it is none only if no mailbox is fresh |
| `CommandAuthority.Authority.Init` | `components/command_authority/command_authority_model.c:198-222` | initialises exactly for a valid configuration, and then to the blank state |
| `CommandAuthority.Authority.Revoke` | `components/command_authority/command_authority_model.c:119-125` | grant and output are taken back, nothing else moves |
| `CommandAuthority.Authority.SetBarrier` | `components/command_authority/command_authority_model.c:370-373` | the barrier is set at the current revision and the given time, and the authority is revoked |
| `CommandAuthority.Authority.FreshestSource` | `components/command_authority/command_authority_model.c:103-117` | the loop from the highest priority down finds the highest fresh source |
| `CommandAuthority.Authority.InvalidateAll` | `components/command_authority/command_authority_model.c:505-509` | every mailbox of a source loses its command and keeps its stream history |
| `CommandAuthority.Authority.StopNow` | `components/command_authority/command_authority_model.c:481-533` | an explicit stop leads to the stopped state, with a barrier at the current revision and time |
| `CommandAuthority.Authority.IsRetired` | `components/command_authority/command_authority_model.c:285-291` | the loop answers membership in the retired streams of the mailbox |
| `CommandAuthority.Authority.CheckPublication` | `components/command_authority/command_authority_model.c:224-306` | the fourteen checks of a publication give the specified result in the specified order, and change nothing |
| `CommandAuthority.Authority.Publish` | `components/command_authority/command_authority_model.c:224-332` | an accepted publication is stored, an out-of-order release stops although it is rejected, everything else leaves the state alone |
| `CommandAuthority.Authority.Store` | `components/command_authority/command_authority_model.c:308-332` | the mailbox, its retired streams and the revision after an accepted publication; a selected source that changes its stream loses the authority |
| `CommandAuthority.Authority.RejectOrder` | `components/command_authority/command_authority_model.c:186-196` | a rejected command without deadman is treated as a stop |
| `CommandAuthority.Authority.SwitchSource` | `components/command_authority/command_authority_model.c:334-397` | the hand-over with its barrier, its reason, and the exhaustion of either counter |
| `CommandAuthority.Authority.HandOver` | `components/command_authority/command_authority_model.c:354-388` | the state part of the hand-over, and whether a counter is exhausted |
| `CommandAuthority.Authority.ArbitrateNow` | `components/command_authority/command_authority_model.c:399-479` | one arbitration takes the state and gives the decision of the specification |
| `CommandAuthorityRuns.StepKeepsInvariant` | `components/command_authority/command_authority_model.c:224-533` | publish, arbitrate and stop keep the whole state invariant: distinct bounded histories, barriers never ahead, zero output without authority |
| `CommandAuthorityRuns.RunKeepsInvariant` | `components/command_authority/command_authority_model.c:224-533` | the invariant holds in every state of every run |
| `CommandAuthorityRuns.BoxStep` | `components/command_authority/command_authority_model.c:276-331` | a step changes a mailbox only by an accepted publication of its own source, or by silencing it |
| `CommandAuthorityRuns.HistoryIsComplete` | `components/command_authority/command_authority_model.c:276-331` | retired streams plus the current one are exactly the streams accepted so far |
| `CommandAuthorityRuns.StreamsAreBounded` | `components/command_authority/command_authority_model.c:294-300` | so a source is never heard on more streams than the history can hold plus one |
| `CommandAuthorityRuns.AcceptedStaysBehind` | `components/command_authority/command_authority_model.c:276-331` | after an acceptance the mailbox is on the same stream with at least that sequence, or the stream is retired |
| `CommandAuthorityRuns.NoReplay` | `components/command_authority/command_authority_model.c:276-331` | over any run no source has the same stream and sequence accepted twice; within a stream sequences rise strictly |
| `CommandAuthorityRuns.StreamsNeverReturn` | `components/command_authority/command_authority_model.c:284-293` | a stream that a source has left is never accepted from it again |
| `CommandAuthorityRuns.ApplyIsLeasedAndBounded` | `components/command_authority/command_authority_model.c:399-479` | an APPLY comes from the highest-priority fresh mailbox, inside its lease and behind both barriers, with its output within the limits |
| `CommandAuthorityRuns.OnlyGrantMoves` | `components/command_authority/command_authority_model.c:119-125` | in every reachable state the output without granted authority is exactly zero |
| `CommandAuthorityRuns.OwnerStep` | `components/command_authority/command_authority_model.c:324-397` | how one step can change the owner and the barriers |
| `CommandAuthorityRuns.FenceHolds` | `components/command_authority/command_authority_model.c:334-479` | after an APPLY the owner and stream stay, or nobody owns the authority, or a later arbitration has stopped and set the barrier in force |
| `CommandAuthorityRuns.AuthorityBarrier` | `components/command_authority/command_authority_model.c:324-479` | between two APPLY of different source or stream some arbitration answered STOP or FAULT_STOP, and the later command was published after it and received strictly later |
| `CommandAuthorityRuns.AfterStop` | `components/command_authority/command_authority_model.c:481-533` | after a stop, an APPLY needs a publication, then an arbitration that selects its source again |
| `CommandAuthorityRuns.RevisionWitness` | `components/command_authority/command_authority_model.c:308-320` | every revision behind a barrier belongs to a later accepted publication |
| `CommandAuthorityRuns.StopNeedsTwoPublications` | `components/command_authority/command_authority_model.c:334-533` | after a stop, an APPLY needs two newly accepted publications of its source with an arbitration between them |
| `CommandAuthorityAnswers.MovingIsKnown` | `components/command_authority/command_authority_model.c:60-72` | in every reachable state the stored flag tells whether the output in force exceeds its moving epsilon |
| `CommandAuthorityAnswers.AppliesIff` | `components/command_authority/command_authority_model.c:431-479` | a command is applied exactly when its source owns the authority, still deserves it, and has published behind the barrier and received strictly after it |
| `CommandAuthorityAnswers.OwnerDeserves` | `components/command_authority/command_authority_model.c:399-445` | an arbitration answers nothing exactly for a clock that runs backwards; otherwise the highest source with a running lease owns the authority afterwards, unless a counter ends |
| `CommandAuthorityAnswers.HandOverAnswer` | `components/command_authority/command_authority_model.c:334-397` | in every run a hand-over answers FAULT_STOP exactly when the owner's lease has gone while the output in force moves, and STOP otherwise; the reason tells an expired lease from a withdrawn command and both from an owner outranked |
| `CommandAuthorityAnswers.OverflowAnswer` | `components/command_authority/command_authority_model.c:354-388` | COUNTER_EXHAUSTED, a FAULT_STOP with no owner, is answered exactly when the hand-over would need a number beyond 64 bits |
| `CommandAuthorityAnswers.QuietAnswer` | `components/command_authority/command_authority_model.c:431-479` | without a hand-over the answer is APPLY, or STOP for want of a source or of a command behind the barrier |
| `CommandAuthorityAnswers.OutputIsTheLastApply` | `components/command_authority/command_authority_model.c:119-125` | in every run the output is granted exactly when some APPLY stands without a stop, a hand-over or a change of the owner's stream since, and then it is that command's velocity; otherwise it is zero |
| `CommandAuthorityAnswers.FirstObjection` | `components/command_authority/command_authority_model.c:224-306` | a publication is accepted exactly when none of fourteen objections holds, and otherwise answered with the first one that does |
| `CommandAuthorityAnswers.RejectionEffect` | `components/command_authority/command_authority_model.c:224-306` | a publication that is neither accepted nor stops changes nothing |
| `CommandAuthorityAnswers.RejectedReleaseStopsIff` | `components/command_authority/command_authority_model.c:186-196` | a rejected publication stops exactly when its deadman is not held and nothing but its stream or sequence is out of order |
| `CommandAuthorityAnswers.EpochCountsBarriers` | `components/command_authority/command_authority_model.c:354-388` | in every run the epoch is the number of hand-overs and stops up to 64 bits, and the counters count as exhausted exactly when some step has needed more |
| `CommandAuthorityAnswers.AcceptanceEffect` | `components/command_authority/command_authority_model.c:308-332` | an accepted publication is its mailbox from then on, without velocity unless its deadman is held, and moves no other mailbox, barrier or epoch |
| `CommandAuthorityAnswers.StopEffect` | `components/command_authority/command_authority_model.c:481-533` | a stop leaves no owner and no valid command, and its barrier lies at the latest revision and the latest time ever seen |
| `CommandAuthorityAnswers.HandOverEffect` | `components/command_authority/command_authority_model.c:354-397` | a hand-over raises the epoch and sets the barrier at the present revision and time; an arbitration without one leaves both alone |
| `CommandAuthorityAnswers.UnconfiguredIsInert` | `components/command_authority/command_authority_model.c:224-230` | an authority that was never configured changes nothing and answers so |
| `RobotKinematics.FirstMotorError` | `components/robot_kinematics/robot_kinematics.c:29-76` | no complaint exactly when every motor is valid and the ids are distinct |
| `RobotKinematics.FirstErrorOfPrefix` | `components/robot_kinematics/robot_kinematics.c:29-76` | the complaint of a list is the one of its shortest bad prefix |
| `RobotKinematics.FirstComplaint` | `components/robot_kinematics/robot_kinematics.c:29-76` | and it is the one about the first motor that has any, its fields in their order and the ids of the others last |
| `RobotKinematics.InverseErrorIff` | `components/robot_kinematics/robot_kinematics.c:78-128` | when the inverse accepts a velocity, and which of its complaints comes first when it does not |
| `RobotKinematics.Validation` | `components/robot_kinematics/robot_kinematics.c:29-76` | no complaint exactly for valid motors with distinct ids on both sides |
| `RobotKinematics.ValidateMotors` | `components/robot_kinematics/robot_kinematics.c:29-76` | the nested loops give the first complaint in source order |
| `RobotKinematics.Commands` | `components/robot_kinematics/robot_kinematics.c:156-171` | one command for each motor, with its id, by the common scale |
| `RobotKinematics.DifferentialInverse` | `components/robot_kinematics/robot_kinematics.c:78-174` | error, report and the filled command array are those of the specification; an error leaves both buffers alone |
| `RobotKinematics.SaturationScale` | `components/robot_kinematics/robot_kinematics.c:130-147` | the running minimum is the common scale |
| `RobotKinematics.FillCommands` | `components/robot_kinematics/robot_kinematics.c:158-171` | the array is filled in place with the specified commands, the rest of it unchanged |
| `RobotKinematics.ScaleBounds` | `components/robot_kinematics/robot_kinematics.c:130-153` | the common scale lies in (0, 1] |
| `RobotKinematics.MotorScaleIsLargest` | `components/robot_kinematics/robot_kinematics.c:139-146` | the scale of one motor is the largest one up to 1 that meets its limit |
| `RobotKinematics.ScaleIsLargest` | `components/robot_kinematics/robot_kinematics.c:130-147` | a scale up to 1 meets every limit exactly when it is not above the common scale |
| `RobotKinematics.CommandsKeepShape` | `components/robot_kinematics/robot_kinematics.c:156-171` | every command is the common scale times the unsaturated speed and within its limit, so the final clamp never acts |
| `RobotKinematics.WheelOfCommand` | `components/robot_kinematics/robot_kinematics.c:15-27` | reading a command back through wheel radius, ratio and sign gives the scaled wheel velocity |
| `RobotKinematics.ForwardOfScaledWheels` | `components/robot_kinematics/robot_kinematics.c:117-128` | forward kinematics of scaled wheel velocities gives the scaled body velocity |
| `RobotKinematics.ForwardOfCommands` | `components/robot_kinematics/robot_kinematics.c:78-174` | forward kinematics of the commands of a left and a right motor gives the common scale times (vx, wz) |
| `MotionApplication.Application.CheckConfig` | `components/motion_application/motion_application_model.c:75-120` | the tests of the configuration, ending in an inverse of standing still |
| `MotionApplication.Application.Clear` | `components/motion_application/motion_application_model.c:147-156` | the fields of a disarmed application without history |
| `MotionApplication.Application.Init` | `components/motion_application/motion_application_model.c:134-157` | initialises exactly for a valid configuration |
| `MotionApplication.Application.IsRetired` | `components/motion_application/motion_application_model.c:34-43` | the loop answers membership in the retired streams |
| `MotionApplication.Application.DropOldest` | `components/motion_application/motion_application_model.c:55-62` | the memory move drops exactly the oldest retired stream |
| `MotionApplication.Application.Remember` | `components/motion_application/motion_application_model.c:51-66` | the stream is appended, the array keeps its last 16 |
| `MotionApplication.Application.RetireActive` | `components/motion_application/motion_application_model.c:45-67` | the active stream is appended once and the stream fields are cleared |
| `MotionApplication.Application.End` | `components/motion_application/motion_application_model.c:159-177` | stop the authority, retire the stream, start the authority afresh, set the state |
| `MotionApplication.Application.RoundCommands` | `components/motion_application/motion_application_model.c:265-280` | rounds to the nearest integer and refuses exactly when one speed leaves 16 bits |
| `MotionApplication.Application.PlanTargets` | `components/motion_application/motion_application_model.c:222-280` | finds targets exactly when the kinematics accepts and every speed fits |
| `MotionApplication.Application.Convert` | `components/motion_application/motion_application_model.c:179-284` | an authority decision becomes the specified state, plan and result |
| `MotionApplication.Application.CheckArm` | `components/motion_application/motion_application_model.c:286-316` | the tests of an ARM in source order, without change |
| `MotionApplication.Application.Offer` | `components/motion_application/motion_application_model.c:317-331` | a fresh authority hears the ARM without a deadman and arbitrates once if it accepts |
| `MotionApplication.Application.Follow` | `components/motion_application/motion_application_model.c:332-341` | the fields of a stream that has just been armed, and nothing else |
| `MotionApplication.Application.HandleArm` | `components/motion_application/motion_application_model.c:286-343` | an ARM takes the state to the specified one, with a STOP plan when accepted |
| `MotionApplication.Application.CheckCommand` | `components/motion_application/motion_application_model.c:345-366` | the tests of a COMMAND in source order, without change |
| `MotionApplication.Application.HandleCommand` | `components/motion_application/motion_application_model.c:345-400` | a COMMAND takes the state to the specified one |
| `MotionApplication.Application.SubmitEvent` | `components/motion_application/motion_application_model.c:402-438` | any event takes the state to the specified one |
| `MotionApplication.Application.TickNow` | `components/motion_application/motion_application_model.c:440-472` | a tick takes the state to the specified one |
| `MotionApplication.Application.RecordActuation` | `components/motion_application/motion_application_model.c:474-500` | an executed plan is remembered in place; a success of APPLY sets ACTIVE even if the stream is gone |
| `MotionApplicationRuns.InitialInvariant` | `components/motion_application/motion_application_model.c:134-157` | the invariant holds after initialisation |
| `MotionApplicationRuns.SubmitKeepsInvariant` | `components/motion_application/motion_application_model.c:402-438` | every event keeps the invariant: distinct retired streams without the active one, an authority that only the active stream has spoken to |
| `MotionApplicationRuns.TickKeepsInvariant` | `components/motion_application/motion_application_model.c:440-472` | so does a tick |
| `MotionApplicationRuns.RecordKeepsInvariant` | `components/motion_application/motion_application_model.c:474-500` | and a recorded plan |
| `MotionApplicationRuns.SoloArbitrate` | `components/motion_application/motion_application_model.c:324-342` | an authority that only one source has spoken to can only apply that source's latest command, or stop |
| `MotionApplicationRuns.PublicationOnStream` | `components/motion_application/motion_application_model.c:372-399` | a command accepted on the live stream keeps it the only voice and raises its sequence |
| `MotionApplicationRuns.OrphanIsEnded` | `components/motion_application/motion_application_model.c:440-472` | ACTIVE without a stream is ended by the next tick with a STOP plan |
| `MotionApplicationRuns.TickNeverApplies` | `components/motion_application/motion_application_model.c:440-472` | a tick answers NONE or STOP, never APPLY |
| `MotionApplicationRuns.LeaseEndsInStop` | `components/motion_application/motion_application_model.c:179-200` | a tick of a live armed model at or after the last accepted reception plus the time to live answers STOP and retires the stream |
| `MotionApplicationRuns.ApplyIsItsCommand` | `components/motion_application/motion_application_model.c:345-400` | an APPLY plan comes from the submit of the very COMMAND it carries: gate open, same stream and source, deadman held, received behind the barrier and within its lease, body within limits, targets those of the body |
| `MotionApplicationRuns.FaultLatches` | `components/motion_application/motion_application_model.c:484-487` | after a failed actuation a live stream is locked: ARM and COMMAND are rejected and a tick does nothing |
| `MotionApplicationRuns.RunKeepsInvariant` | `components/motion_application/motion_application_model.c:402-500` | the invariant holds in every state of every run |
| `MotionApplicationRuns.ArmChangesStream` | `components/motion_application/motion_application_model.c:286-343` | an accepted ARM starts its stream on an authority that has just set its barrier; a rejected one changes nothing about the stream |
| `MotionApplicationRuns.CommandChangesStream` | `components/motion_application/motion_application_model.c:345-400` | a COMMAND keeps the live stream, with a sequence that does not fall, or ends it |
| `MotionApplicationRuns.SubmitChangesStream` | `components/motion_application/motion_application_model.c:286-438` | an event starts a stream (an accepted ARM without live stream), keeps it, or ends and retires it |
| `MotionApplicationRuns.TickChangesStream` | `components/motion_application/motion_application_model.c:440-472` | a tick keeps the live stream, or ends and retires it |
| `MotionApplicationRuns.LiveStreamWasArmed` | `components/motion_application/motion_application_model.c:286-343` | a live stream goes back to one accepted ARM with nothing but its own history since |
| `MotionApplicationRuns.ApplyFollowsItsArm` | `components/motion_application/motion_application_model.c:286-400` | every APPLY goes back to an accepted ARM of its stream and source, with a higher sequence, and its command was received strictly after the ARM |
| `MotionApplicationRuns.RetiredAreTheLast` | `components/motion_application/motion_application_model.c:45-67` | the retired array is always the last 16 retired streams, in order |
| `MotionApplicationRuns.RearmNeedsEviction` | `components/motion_application/motion_application_model.c:303-310` | a retired stream can be armed again only after 16 other streams have been retired |
| `MotionApplicationRuns.LeftMeansRetired` | `components/motion_application/motion_application_model.c:45-67` | a stream that was live and is no longer has been retired in between |
| `MotionApplicationRuns.SequenceRises` | `components/motion_application/motion_application_model.c:345-400` | while a stream lives its sequence does not fall |
| `MotionApplicationRuns.DispatchedOnce` | `components/motion_application/motion_application_model.c:179-226` | two APPLY of the same stream and sequence need the stream to be retired, evicted by 16 others and armed again: each accepted command is dispatched at most once |
| `MotionApplicationAnswers.StopAnswer` | `components/motion_application/motion_application_model.c:417-434` | a STOP or DISARM ends the stream in DISARMED with a STOP plan, unless it is dated in the future |
| `MotionApplicationAnswers.ArmAnswer` | `components/motion_application/motion_application_model.c:286-343` | an ARM is accepted exactly for a supported source, an open gate, a new stream, no other stream and a running lease; then the authority follows it and the plan is a STOP, otherwise nothing changes |
| `MotionApplicationAnswers.ArmRefusal` | `components/motion_application/motion_application_model.c:286-331` | which of the eight reasons a refused ARM is answered with |
| `MotionApplicationAnswers.StrayCommand` | `components/motion_application/motion_application_model.c:345-366` | a COMMAND for another state, stream or source changes nothing, and which reason it is answered with |
| `MotionApplicationAnswers.GatedCommand` | `components/motion_application/motion_application_model.c:366-372` | a COMMAND of the live stream with a closed gate ends the stream in FAULT with a STOP plan |
| `MotionApplicationAnswers.RejectedCommand` | `components/motion_application/motion_application_model.c:381-394` | a COMMAND that the authority rejects keeps the stream and makes a STOP plan exactly when its deadman is released |
| `MotionApplicationAnswers.DispatchedCommand` | `components/motion_application/motion_application_model.c:179-284` | an accepted COMMAND that the authority follows is dispatched at once: a released deadman as a STOP, else its velocity as an APPLY, or FAULT with a STOP when the motors cannot do it |
| `MotionApplicationAnswers.WaitingCommand` | `components/motion_application/motion_application_model.c:202-212` | an accepted COMMAND in front of the barrier, or without an owner, makes no plan, and the authority follows it from then on |
| `MotionApplicationAnswers.TickAnswer` | `components/motion_application/motion_application_model.c:440-472` | a tick ends a live stream in FAULT for a closed gate or a clock that runs backwards, as EXPIRED when its lease is over, each with a STOP; otherwise it changes nothing |
| `MotionService.Handle.constructor` | `components/motion_application/motion_application_service.c:429-491` | a service with nothing pending around an initialised application |
| `MotionService.Handle.QueuePlan` | `components/motion_application/motion_application_service.c:103-114` | a STOP plan displaces a waiting APPLY plan |
| `MotionService.Handle.TakePendingPlan` | `components/motion_application/motion_application_service.c:116-131` | STOP leaves the queue before APPLY |
| `MotionService.Handle.TakePendingEvent` | `components/motion_application/motion_application_service.c:133-153` | stop events leave the queue before ARM, ARM before COMMAND |
| `MotionService.Handle.PublishEvent` | `components/motion_application/motion_application_service.c:584-628` | a busy lock changes nothing; else the event is stored, a STOP or DISARM discards the waiting ARM, COMMAND and APPLY plan, and it is accepted exactly when a task is running |
| `MotionService.Handle.SubmitEvent` | `components/motion_application/motion_application_service.c:545-582` | a busy lock changes nothing; else the event goes through the model, its plan into the queue, and it is accepted exactly when the model says so |
| `MotionService.Handle.CycleLocked` | `components/motion_application/motion_application_service.c:199-232` | the lock section: at most one event, then at most one plan, a tick only when none was waiting |
| `MotionService.Handle.RecordPlanResult` | `components/motion_application/motion_application_service.c:179-188` | the result of an executed plan is recorded in the model and touches no queue |
| `MotionServiceRuns.SubmittedStep` | `components/motion_application/motion_application_service.c:545-582` | how handing one event to the model moves stream, barrier and queues |
| `MotionServiceRuns.SubmitEndsWithStop` | `components/motion_application/motion_application_service.c:545-582` | whenever a submission ends the stream its plan is a STOP |
| `MotionServiceRuns.HandledStep` | `components/motion_application/motion_application_service.c:199-219` | the event half of a cycle |
| `MotionServiceRuns.CycleStep` | `components/motion_application/motion_application_service.c:190-246` | a whole lock section keeps the invariant and obeys the rules of streams and plans |
| `MotionServiceRuns.QuietStep` | `components/motion_application/motion_application_service.c:179-246` | steps that hand over no event leave stream, authority and waiting STOP alone |
| `MotionServiceRuns.SystemStep` | `components/motion_application/motion_application_service.c:103-246` | every step of the interleaving keeps the invariant and obeys the rules of streams and plans |
| `MotionServiceRuns.RunKeepsInvariant` | `components/motion_application/motion_application_service.c:103-246` | the invariant holds in every state of every interleaving |
| `MotionServiceRuns.LiveStreamWasArmed` | `components/motion_application/motion_application_service.c:190-246` | a live stream goes back to an accepted ARM, whose STOP plan still waits or has been taken |
| `MotionServiceRuns.ArmIsUnique` | `components/motion_application/motion_application_service.c:190-246` | that ARM is unique |
| `MotionServiceRuns.WaitingPlanOrigin` | `components/motion_application/motion_application_service.c:103-131` | a waiting APPLY plan was made by a COMMAND on the stream of an accepted ARM that is still live |
| `MotionServiceRuns.TakenPlanOrigin` | `components/motion_application/motion_application_service.c:116-131` | an APPLY that leaves the lock section was preceded by a STOP that left it after the ARM of its stream |
| `MotionServiceRuns.TakenStopIsSent` | `components/motion_application/motion_application_service.c:190-246` | a STOP that left the lock section is sent before the task enters its next cycle |
| `MotionServiceRuns.FlightOrigin` | `components/motion_application/motion_application_service.c:190-246` | an APPLY in flight was taken by exactly one earlier cycle |
| `MotionServiceRuns.EveryApplyHasItsArm` | `components/motion_application/motion_application_service.c:190-246` | every APPLY sent to the motors: an accepted ARM, a STOP sent after it, the COMMAND of that stream received strictly after the ARM that made the plan, and no end of the stream until the task took it |
| `MotionServiceRuns.StopDominates` | `components/motion_application/motion_application_service.c:545-582` | after an accepted STOP an APPLY is sent only if it had left the lock section before, or after a new accepted ARM and a STOP sent since |
| `MotionServiceRuns.AtMostOneStraggler` | `components/motion_application/motion_application_service.c:190-246` | so at most one APPLY outlives an accepted STOP without a new ARM |
| `MotionServiceRuns.WaitingStopIsTaken` | `components/motion_application/motion_application_service.c:116-131` | a lock section that finds or accepts a STOP takes it |
| `MotionServiceRuns.StopIsNext` | `components/motion_application/motion_application_service.c:256-269` | after an accepted STOP the very next lock section of the task takes a STOP |
| `MotionServiceRuns.PublishedStopIsNext` | `components/motion_application/motion_application_service.c:584-628` | the next lock section after a published stop hands a stop to the model, and takes a STOP unless that is dated in the future |
| `MotionServiceRuns.StopAcceptedIff` | `components/motion_application/motion_application_model.c:402-420` | a STOP or DISARM is accepted exactly when it was not received in the future; otherwise it changes nothing |
| `MotionServiceRuns.PublishedStopWaits` | `components/motion_application/motion_application_service.c:584-628` | a published stop waits until a cycle hands a stop to the model |
| `MotionServiceRuns.PublishedStopDominates` | `components/motion_application/motion_application_service.c:584-628` | a published stop dominates like an accepted one, if no stop is dated in the future |
| `MotionServiceRuns.WaitingIntentIsNewer` | `components/motion_application/motion_application_service.c:600-616` | after a published stop every waiting ARM or COMMAND was published later |
| `MotionServiceRuns.StopIsHandedFirst` | `components/motion_application/motion_application_service.c:133-153` | and none of them reaches the model before the stop has |
| `MotionServiceRuns.ModelMakesNoOrphan` | `components/motion_application/motion_application_model.c:402-472` | no event and no tick leaves ACTIVE without a stream |
| `MotionServiceRuns.OrphanArisesIff` | `components/motion_application/motion_application_model.c:474-500` | ACTIVE without a stream arises exactly when the success of an APPLY is recorded after its stream has ended |
| `MotionServiceRuns.OrphanRecovers` | `components/motion_application/motion_application_service.c:190-246` | such a state has no APPLY waiting, and the first cycle without waiting event or STOP ends it with a STOP plan |
| `MotionApplicationAnswers.TargetsAreNearest` | `components/motion_application/motion_application_model.c:262-280` | the targets of a plan are, motor by motor, the whole speeds nearest to the commands, halves away from zero, and exist exactly when all of them fit into 16 bits |
| `MotionApplicationAnswers.RunIsBlank` | `components/motion_application/motion_application_model.c:45-67` | in every run a model without stream keeps nothing of one |
| `MotionFlightRuns.EveryResultIsRecorded` | `components/motion_application/motion_application_service.c:236-245` | the result of every plan that is sent is recorded before the task enters its next lock section |
| `MotionFlightRuns.FailedApplyIsStopped` | `components/motion_application/motion_application_service.c:236-245` | a failed APPLY is recorded, followed by a STOP, and the result of that STOP is recorded too, all before the next lock section |
| `MotionFlightRuns.RecordedFlight` | `components/motion_application/motion_application_service.c:236-245` | behind a recorded result the task is idle, but for the STOP behind a failed APPLY |
| `MotionFlightRuns.StopOrigin` | `components/motion_application/motion_application_service.c:190-246` | no STOP is sent without a reason: it was taken from a lock section, or an APPLY has just failed |
| `MotionFlightRuns.SpeedsAreTheLastDone` | `components/motion_application/motion_application_model.c:474-500` | over every interleaving the remembered speeds are, motor by motor, those of the last plan recorded as done |
| `MotionFlightRuns.RecordedState` | `components/motion_application/motion_application_model.c:474-500` | a recorded failure leads to FAULT, a recorded APPLY to ACTIVE, and a recorded STOP leaves the state alone |
| `MotionReleaseRuns.ReleaseStopsIff` | `components/motion_application/motion_application_model.c:220-226` | a COMMAND with a released deadman makes a STOP plan exactly when the gate is closed, the authority rejects it, or the authority follows the stream and the COMMAND lies behind the barrier (or its counters end) |
| `MotionReleaseRuns.ReleaseStopsDriving` | `components/motion_application/motion_application_model.c:220-226` | so it always stops while an APPLY may be in force |
| `MotionReleaseRuns.SubmitKeepsDriving` | `components/motion_application/motion_application_model.c:345-400` | an APPLY plan leaves an authority behind that follows the stream, and only a STOP plan leads out of that |
| `MotionReleaseRuns.StepMakes` | `components/motion_application/motion_application_service.c:190-246` | what a plan made at any step of the interleaving does to the queues and the model |
| `MotionReleaseRuns.DrivesOrStopped` | `components/motion_application/motion_application_service.c:190-246` | in every interleaving a live stream whose authority does not drive has a STOP behind its last APPLY |
| `MotionReleaseRuns.ReleaseHasItsStop` | `components/motion_application/motion_application_service.c:190-246` | when a released COMMAND of the live stream is handed over, the last plan made so far is a STOP |
| `MotionReleaseRuns.MadeStopIsTaken` | `components/motion_application/motion_application_service.c:116-131` | a STOP that is made is taken by the next lock section |
| `MotionReleaseRuns.ReleaseStopsTheMotors` | `components/motion_application/motion_application_service.c:190-246` | after a released COMMAND every APPLY ever sent was made by a later COMMAND, or has a STOP taken behind it by the end of the next lock section that comes after both |
| `MotionReleaseRuns.ReleaseIsNext` | `components/motion_application/motion_application_service.c:190-246` | while an APPLY may be in force, or when the release is refused, the next lock section takes a STOP and no APPLY is left waiting |
| `MotionQueueRuns.HandedAnswer` | `components/motion_application/motion_application_service.c:133-153` | a lock section hands over exactly one waiting event, a stop before an ARM before a COMMAND; it is gone from its place and the others wait on |
| `MotionQueueRuns.WaitingAnswer` | `components/motion_application/motion_application_service.c:584-628` | a publication takes its place, a stop clears the waiting ARM, COMMAND and APPLY plan, and no other step but a lock section moves an event |
| `MotionQueueRuns.PlaceIff` | `components/motion_application/motion_application_service.c:133-153` | over every interleaving an event waits exactly as long as its publication has not been displaced: none is lost, and none is handed over twice |
| `MotionQueueRuns.TakenAnswer` | `components/motion_application/motion_application_service.c:116-131` | a lock section takes the waiting STOP, or else the waiting APPLY, and what it takes is gone |
| `MotionQueueRuns.ApplyIsTakenOnce` | `components/motion_application/motion_application_service.c:116-131` | no APPLY is executed twice: between two that are taken, a COMMAND has made the second |
| `MotionQueueRuns.StopIsTakenOnce` | `components/motion_application/motion_application_service.c:116-131` | and every STOP that is taken has been made since the last one |
| `MotionQueueRuns.PublishedStopDiscards` | `components/motion_application/motion_application_service.c:584-628` | after a published STOP or DISARM an APPLY that is sent was in flight before it or made by a COMMAND handed over after it |
| `MotionExamples.FirstArm` | `components/motion_application/motion_application_model.c:286-343` | with every valid configuration the first ARM is accepted, and leaves an authority that waits for a command |
| `MotionExamples.FirstCommand` | `components/motion_application/motion_application_model.c:345-400` | and the first COMMAND after it makes an APPLY plan |
| `MotionExamples.OrphanIsReached` | `components/motion_application/motion_application_model.c:474-500` | with every valid configuration a run leaves ACTIVE behind without a stream |
| `MotionExamples.LatchIsReached` | `components/motion_application/motion_application_model.c:484-487` | and a run leaves a live stream in FAULT |
| `RobotProfile.FindDevice` | `components/robot_profile/robot_profile.c:333-339` | the device found has the id, and none is found only if none has it |
| `RobotProfile.FirstClash` | `components/robot_profile/robot_profile.c:579-584` | no clash exactly when the endpoint differs from all before it in id, in name, and in device or channel |
| `RobotProfile.EndpointsErrorIff` | `components/robot_profile/robot_profile.c:576-599` | no endpoint has an error exactly when ids, names and channels are distinct, ids and names are not empty, every endpoint is a channel of a device whose driver can do what it promises, and the limits are in order |
| `RobotProfile.ProfileErrorIff` | `components/robot_profile/robot_profile.c:518-669` | no error exactly for the valid profiles |
| `RobotProfile.LookUp` | `components/robot_profile/robot_profile.c:333-339` | the loop finds the first device with the id |
| `RobotProfile.ValidateAttachment` | `components/robot_profile/robot_profile.c:585-598` | the tests of one endpoint against its device and its limits give their error in source order |
| `RobotProfile.ValidateEndpoints` | `components/robot_profile/robot_profile.c:576-599` | the nested loops report the first error of the first bad endpoint |
| `RobotProfile.ValidateSides` | `components/robot_profile/robot_profile.c:636-660` | accepts exactly driving endpoints with velocity, stop, sign and ratio, on both sides, and reports a geometry error otherwise |
| `RobotProfile.ValidateNoSides` | `components/robot_profile/robot_profile.c:661-668` | without geometry no endpoint may drive |
| `RobotProfile.ValidateMotion` | `components/robot_profile/robot_profile.c:617-668` | geometry and sides are accepted exactly when they are valid |
| `RobotProfile.Validate` | `components/robot_profile/robot_profile.c:522-669` | the error of endpoints and geometry that comes first in source order, and none exactly for the valid profiles |
| `MotionProfile.BuildConfig` | `components/motion_application/motion_application_service.c:287-338` | the loop over the endpoints builds the specified motion configuration or error |
| `MotionProfile.ValidProfileBuilds` | `components/motion_application/motion_application_service.c:287-338` | a valid profile builds exactly when it has differential geometry: size and state errors cannot happen |
| `MotionProfile.BuildErrorIff` | `components/motion_application/motion_application_service.c:287-338` | why no configuration is built |
| `MotionProfile.MotorOfEndpoint` | `components/motion_application/motion_application_service.c:317-334` | each motor comes from a driving endpoint, with a limit that both its directions allow |
| `MotionProfile.StartsIff` | `components/motion_application/motion_application_model.c:75-157` | a valid profile starts exactly when every driving endpoint can turn both ways and the velocity limits reach the moving epsilon |
| `MotionProfile.OneWayRobotCannotStart` | `components/robot_profile/robot_profile.c:590-591` | a valid profile of two motors that starts exactly if the right one can turn backwards |
| `MotionProfile.PlannableIff` | `components/motion_application/motion_application_model.c:222-280` | with a valid profile a velocity becomes motor speeds exactly when it has no lateral part: the 16-bit overflow cannot happen |
| `MotionProfile.TargetsWithinLimits` | `components/robot_profile/robot_profile.c:590-591` | every target lies within the limits of the endpoint it is addressed to |
| `MotionProfile.MadeWithinLimits` | `components/motion_application/motion_application_model.c:265-280` | so does every target of an APPLY plan the service makes |
| `MotionProfile.SentSpeedsAreInRange` | `components/robot_capabilities/robot_capabilities.c:22-31` | in every run of the service no speed sent to the motors is refused as out of range |
| `MotionProfile.UnplannableIsLateral` | `components/motion_application/motion_application_model.c:222-262` | a command whose motion cannot be planned has a lateral part, and it ends its stream in FAULT |
| `RobotCapabilities.FindIsMembership` | `components/robot_capabilities/robot_capabilities.c:120-127` | an endpoint is found exactly when one with that id is registered |
| `RobotCapabilities.FindsItself` | `components/robot_capabilities/robot_capabilities.c:120-138` | in a registry every endpoint is found under its own id |
| `RobotCapabilities.Registry.constructor` | `components/robot_capabilities/robot_capabilities.c:113-118` | an empty registry |
| `RobotCapabilities.Registry.Find` | `components/robot_capabilities/robot_capabilities.c:120-127` | the loop finds the first endpoint with the id |
| `RobotCapabilities.Registry.Add` | `components/robot_capabilities/robot_capabilities.c:129-138` | appends, or refuses for the specified reason; ids stay distinct up to the capacity |
| `ActuationCoordinator.FirstFailure` | `components/actuation_coordinator/actuation_coordinator.c:59-77` | the least index whose request fails |
| `ActuationCoordinator.ReportBuffer.Reset` | `components/actuation_coordinator/actuation_coordinator.c:5-13` | a blank report |
| `ActuationCoordinator.Coordinator.SetVelocity` | `components/robot_capabilities/robot_capabilities.c:22-31` | the device is asked exactly when all checks pass |
| `ActuationCoordinator.Coordinator.StopEndpoint` | `components/robot_capabilities/robot_capabilities.c:76-83` | the same for a stop, without the availability check |
| `ActuationCoordinator.Coordinator.Rollback` | `components/actuation_coordinator/actuation_coordinator.c:37-51` | every earlier applied endpoint is stopped, oldest first, and the answers are reported |
| `ActuationCoordinator.Coordinator.Attempt` | `components/actuation_coordinator/actuation_coordinator.c:60-66` | one request: found, checked and sent |
| `ActuationCoordinator.Coordinator.ApplyLocked` | `components/actuation_coordinator/actuation_coordinator.c:53-79` | log, outcome, count and results of a group are those of the specification |
| `ActuationCoordinator.Coordinator.ApplyVelocity` | `components/actuation_coordinator/actuation_coordinator.c:81-99` | the same with the lock around it, for any number of requests |
| `ActuationCoordinator.Coordinator.StopNext` | `components/actuation_coordinator/actuation_coordinator.c:254-265` | one registered endpoint of a stop of everything |
| `ActuationCoordinator.Coordinator.StopAllLocked` | `components/actuation_coordinator/actuation_coordinator.c:254-273` | log, counts and results of a stop of everything are those of the specification |
| `ActuationCoordinator.Coordinator.StopAll` | `components/actuation_coordinator/actuation_coordinator.c:243-276` | the same with the lock around it |
| `ActuationRuns.NothingAfterTheFailure` | `components/actuation_coordinator/actuation_coordinator.c:53-79` | when request k fails no endpoint after k is touched, and nothing is called but speeds up to k and stops of those earlier endpoints that can be stopped |
| `ActuationRuns.RequiredFailureStopsEarlier` | `components/actuation_coordinator/actuation_coordinator.c:37-77` | when a required endpoint fails, every earlier endpoint that can be stopped is stopped after its speed was set, and no speed follows |
| `ActuationRuns.UnstoppableKeepsItsSpeed` | `components/actuation_coordinator/actuation_coordinator.c:37-51` | an earlier endpoint that cannot be stopped keeps its speed through the rollback, and its result says that the rollback failed |
| `ActuationRuns.NoRollbackWithoutARequiredFailure` | `components/actuation_coordinator/actuation_coordinator.c:73-75` | a failure of an optional or unknown endpoint rolls nothing back |
| `ActuationRuns.SuccessIff` | `components/actuation_coordinator/actuation_coordinator.c:53-79` | SUCCESS is reported exactly when every request was answered with success, and then the devices got exactly the requested speeds in order |
| `ActuationRuns.AppliedCountIsFlags` | `components/actuation_coordinator/actuation_coordinator.c:67-77` | the applied count is the number of applied flags, and PARTIAL means some but not all |
| `ActuationRuns.StopsEachOnce` | `components/actuation_coordinator/actuation_coordinator.c:254-265` | a stop of everything reaches each endpoint that can be stopped exactly once and no other, whatever the devices answer |
| `ActuationRuns.ResultsFollowTheRegistry` | `components/actuation_coordinator/actuation_coordinator.c:259-264` | the results list the stoppable endpoints in registry order |
| `ActuationRuns.StopAllSucceedsIff` | `components/actuation_coordinator/actuation_coordinator.c:266-272` | SUCCESS exactly when there was something to stop and every stop was acknowledged |
| `ActuationRuns.ApplyBalancesTheLock` | `components/actuation_coordinator/actuation_coordinator.c:92-98` | on every path of a group the lock is taken when free, released when held, devices are called only under it, and it ends up free |
| `ActuationRuns.StopAllBalancesTheLock` | `components/actuation_coordinator/actuation_coordinator.c:250-275` | the same for a stop of everything |
| `ActuationAnswers.AddIff` | `components/robot_capabilities/robot_capabilities.c:129-138` | an endpoint is registered exactly when it has a name, a port, a new id and room, and otherwise which of these it lacks |
| `ActuationAnswers.AskedIff` | `components/robot_capabilities/robot_capabilities.c:22-31` | the device of a registered endpoint is asked exactly when it is available, its velocity port works and the speed is within its limits; otherwise the answer tells which of these fails |
| `ActuationAnswers.UnknownIsUnavailable` | `components/actuation_coordinator/actuation_coordinator.c:60-66` | an id that nobody has registered is unavailable and no device is asked |
| `ActuationAnswers.OnlyDrivableAreDriven` | `components/actuation_coordinator/actuation_coordinator.c:53-79` | no device is ever asked for a speed that its endpoint does not offer |
| `ActuationAnswers.AppliedIff` | `components/actuation_coordinator/actuation_coordinator.c:67-70` | a request counts as applied exactly when its device was asked for its speed, at its place in the order, and answered with success |
| `ActuationAnswers.RollbackIff` | `components/actuation_coordinator/actuation_coordinator.c:37-77` | a rollback is attempted for exactly the requests in front of a failing required one |
| `ActuationAnswers.RollbackDoneIff` | `components/actuation_coordinator/actuation_coordinator.c:37-51` | and is reported as done exactly when the endpoint can be stopped and its device, asked at its place, answered with success |
| `ActuationAnswers.ErrorsIff` | `components/actuation_coordinator/actuation_coordinator.c:53-79` | only the failing request carries an error, and the results behind it are blank |
| `ActuationAnswers.OutcomeIff` | `components/actuation_coordinator/actuation_coordinator.c:67-79` | SUCCESS, PARTIAL and FAILURE by the number of applied requests |
| `ActuationAnswers.StopAppliedIff` | `components/actuation_coordinator/actuation_coordinator.c:254-265` | every endpoint with a stop port has its result in registry order, applied exactly when its port works and its device answered with success |
| `ActuationAnswers.StopOutcomeIff` | `components/actuation_coordinator/actuation_coordinator.c:266-273` | the outcome of a stop of everything by the number of acknowledged stops |
| `ActuationAnswers.AppliedUnderTheLock` | `components/actuation_coordinator/actuation_coordinator.c:81-99` | the same for the whole operation, between acquisition and release of the lock |
| `ActuationAnswers.RefusedTouchesNothing` | `components/actuation_coordinator/actuation_coordinator.c:81-95` | without the lock, and for a group that is empty or too long, no device is called |
| `IsotonicFit.FitIsOptimal` | `tools/analyze_as5600_linearity.py:192-216` | every non-decreasing list costs at least as much as the fit, and more by its squared distance from it |
| `IsotonicFit.FitIsUnique` | `tools/analyze_as5600_linearity.py:192-216` | the fit is the only non-decreasing list of least cost |
| `IsotonicFit.SortedIsUnchanged` | `tools/analyze_as5600_linearity.py:192-216` | non-decreasing data is its own fit |
| `IsotonicFit.ShiftedFit` | `tools/analyze_as5600_linearity.py:192-216` | the fit moves with the data |
| `IsotonicFit.MergeKeepsPooled` | `tools/analyze_as5600_linearity.py:201-212` | pooling two violating neighbours keeps the means of the parts and that no prefix of a block has a smaller mean |
| `IsotonicFit.Pool` | `tools/analyze_as5600_linearity.py:198-212` | the block stack covers the data with pooled blocks of rising means |
| `IsotonicFit.SpreadIsFit` | `tools/analyze_as5600_linearity.py:213-216` | spreading such blocks out gives the fit |
| `IsotonicFit.IsotonicNonDecreasing` | `tools/analyze_as5600_linearity.py:192-216` | the result is non-decreasing, has the sum of the data, and is the unique list of least cost; sorted data comes back unchanged |
| `CalibrationLut.WrapIsModulo` | `components/as5600_device/as5600_device.c:62-69` | wrapping with the truncating remainder of C computes the mathematical remainder in 0 up to a turn |
| `CalibrationLut.TruncatedIs` | `components/as5600_device/as5600_device.c:62-69` | the remainder of C: below the divisor, a multiple away, and not of the other sign |
| `CalibrationLut.Uncorrected` | `components/as5600_device/as5600_device.c:40-60` | without a table the angle is the nominal one |
| `CalibrationLut.NoOverflow` | `components/as5600_device/as5600_device.c:28-69` | no table of 16-bit nodes makes any intermediate leave 32 bits |
| `CalibrationLut.Increment` | `components/as5600_device/as5600_device.c:28-60` | from one raw count to the next the angle grows by 36000 plus 128 times the step of the node, also across nodes |
| `CalibrationLut.LastIncrement` | `components/as5600_device/as5600_device.c:267-267` | the same across the end of the turn |
| `CalibrationLut.Validate` | `components/as5600_device/as5600_device.c:246-268` | the 4096 comparisons accept exactly the tables with metadata whose 128 cyclic steps are at least -281 |
| `CalibrationLut.LiftRises` | `components/as5600_device/as5600_device.c:246-268` | with such a table the unwrapped angle is strictly increasing over all integers |
| `CalibrationLut.ValidIffLiftRises` | `components/as5600_device/as5600_device.c:246-268` | a table is accepted exactly when its unwrapped angle is strictly increasing over all integers |
| `CalibrationLut.WrappedIsInjective` | `components/as5600_device/as5600_device.c:284-293` | with an accepted table different raw angles have different wrapped angles |
| `CalibrationLut.DegreesAreScaled` | `components/robot_profile/robot_profile.c:376-387` | the profile validator looks at the angle of the device, in degrees |
| `CalibrationLut.ValidateProfile` | `components/robot_profile/robot_profile.c:389-414` | in exact arithmetic the profile validator accepts the same tables as the device |
| `CalibrationTool.PositionOf` | `tools/analyze_as5600_linearity.py:548-553` | node and fraction of a raw count |
| `CalibrationTool.ToolIsProfile` | `tools/analyze_as5600_linearity.py:548-571` | the tool computes the angle of the profile validator |
| `CalibrationTool.ToolIsScaled` | `tools/analyze_as5600_linearity.py:548-571` | and of the device, including the count that closes the turn |
| `CalibrationTool.ToolIncrement` | `tools/analyze_as5600_linearity.py:572-575` | an increment is invalid exactly when its node falls by more than 281 |
| `CalibrationTool.CheckIff` | `tools/analyze_as5600_linearity.py:556-562` | a table of another length and one with a node beyond 16 bits are refused, every other one is checked |
| `CalibrationTool.TurnRemainderIff` | `tools/analyze_as5600_linearity.py:548-553` | the angle within the turn |
| `CalibrationTool.BadNodes` | `tools/analyze_as5600_linearity.py:575-575` | no bad node exactly when all steps are at least -281 |
| `CalibrationTool.ValidateLut` | `tools/analyze_as5600_linearity.py:556-583` | length and range errors, else monotonic exactly for the tables the device accepts, with 32 invalid increments for each bad node, and the least and greatest increment |
| `CalibrationTool.ExtremeIncrements` | `tools/analyze_as5600_linearity.py:573-581` | the least and greatest of the 4096 increments are those of the least and greatest step of the 128 nodes |
| `CalibrationTool.NominalLiesBetween` | `tools/analyze_as5600_linearity.py:580-582` | the nominal increment lies between them |
| `CalibrationTool.RoundIsNearest` | `tools/analyze_as5600_linearity.py:586-590` | rounding is to the nearest integer |
| `CalibrationTool.RoundIff` | `tools/analyze_as5600_linearity.py:586-590` | and of two nearest integers it is the even one |
| `CalibrationTool.ScaledIs` | `tools/analyze_as5600_linearity.py:586-590` | a permille of a degree is a tenth of a centidegree |
| `CalibrationTool.QuantizedIsCentred` | `tools/analyze_as5600_linearity.py:586-590` | the quantised table is centred to within half a centidegree |
| `CalibrationTool.QuantizedIsNear` | `tools/analyze_as5600_linearity.py:586-590` | it differs from the scaled values by one common offset and at most half a centidegree a node |
| `CalibrationTool.FlatIsValid` | `tools/analyze_as5600_linearity.py:593-606` | no correction at all is always monotonic |
| `CalibrationTool.MakeSafeLut` | `tools/analyze_as5600_linearity.py:593-606` | the search answers with the largest monotonic scale if it is at least one half, and its last error cannot happen |
| `RcLanInterlock.Interlock.Init` | `components/robot_safety/robot_safety_rc_lan_interlock_model.c:38-55` | initialises exactly for a valid configuration |
| `RcLanInterlock.Interlock.Observe` | `components/robot_safety/robot_safety_rc_lan_interlock_model.c:66-81` | what one observation says before any confirmation |
| `RcLanInterlock.Interlock.Count` | `components/robot_safety/robot_safety_rc_lan_interlock_model.c:105-129` | one more agreeing new frame, and the commitment it may complete |
| `RcLanInterlock.Interlock.UpdateNow` | `components/robot_safety/robot_safety_rc_lan_interlock_model.c:57-158` | one observation takes the state to the specified one and tells whether the LAN is allowed |
| `RcLanInterlock.UpdateKeepsInvariant` | `components/robot_safety/robot_safety_rc_lan_interlock_model.c:57-158` | an update keeps the invariant: the candidate count stays below the threshold and its state matches |
| `RcLanInterlock.RunKeepsInvariant` | `components/robot_safety/robot_safety_rc_lan_interlock_model.c:57-158` | the invariant holds in every run |
| `RcLanInterlock.CountHasEvidence` | `components/robot_safety/robot_safety_rc_lan_interlock_model.c:103-134` | a count of c stands on c new frames that agree, no two in a row with the same number, with nothing against them since the first |
| `RcLanInterlock.TakeoverIsConfirmed` | `components/robot_safety/robot_safety_rc_lan_interlock_model.c:104-119` | the priority epoch moves only on the configured number of agreeing new frames, the last just now, without absence, return to the committed state or new frame to the contrary since the first |
| `RcLanInterlock.OppositionCancelsIff` | `components/robot_safety/robot_safety_rc_lan_interlock_model.c:88-134` | a present observation against a candidate cancels it exactly when it is a new frame or shows the committed state |
| `RcLanInterlock.IgnoredOppositionIsEarly` | `components/robot_safety/robot_safety_rc_lan_interlock_model.c:130-134` | an ignored opposition is a re-read frame, before anything has been committed |
| `RcLanInterlock.OppositionCanBeIgnored` | `components/robot_safety/robot_safety_rc_lan_interlock_model.c:104-134` | two new frames take over although a re-read frame between them showed the opposite |
| `RcLanInterlock.NothingOpposes` | `components/robot_safety/robot_safety_rc_lan_interlock_model.c:83-134` | for receivers that hand out a number together with its channels, every observation since the first agreeing frame of a count or takeover shows the candidate |
| `RcLanInterlock.AbsenceCancels` | `components/robot_safety/robot_safety_rc_lan_interlock_model.c:91-98` | absence always cancels a candidate and never moves the epoch |
| `RcLanInterlock.PriorityShutsOutIff` | `components/robot_safety/robot_safety_rc_lan_interlock_model.c:136-147` | a channel that shows priority shuts the LAN out exactly when priority is committed |
| `RcLanInterlock.LanReturns` | `components/robot_safety/robot_safety_rc_lan_interlock_model.c:136-147` | from committed priority the LAN comes back only by a silent receiver or a failsafe confirmed by new frames |
| `RcLanInterlock.EpochCountsTakeovers` | `components/robot_safety/robot_safety_rc_lan_interlock_model.c:113-116` | the epoch is the number of takeovers modulo 2^32 |
| `RcLanInterlock.SameEpochMeansNoTakeover` | `components/robot_safety/robot_safety_rc_lan_interlock_model.c:113-116` | equal epochs mean no takeover in between, short of 2^32 of them |
| `RcLanConfirmation.NewIffBrings` | `components/robot_safety/robot_safety_rc_lan_interlock_model.c:83-86` | an observation is a new frame exactly when its number is not zero and not that of the last frame received before it |
| `RcLanConfirmation.ConfirmationCommits` | `components/robot_safety/robot_safety_rc_lan_interlock_model.c:104-147` | as many new frames as configured, with nothing else seen between them, always commit the side they show, priority or failsafe, and let the LAN out or in |
| `RcLanConfirmation.CommitmentIsConfirmed` | `components/robot_safety/robot_safety_rc_lan_interlock_model.c:104-129` | and every change of what is committed, in either direction, stands on that many agreeing frames |
| `RcLanConfirmation.EpochMovesIff` | `components/robot_safety/robot_safety_rc_lan_interlock_model.c:113-116` | the epoch moves exactly when priority is committed anew |
| `RcLanConfirmation.LanAllowedIff` | `components/robot_safety/robot_safety_rc_lan_interlock_model.c:57-158` | after any observation the LAN is allowed exactly when the interlock is off, the receiver is silent, or the channel is there and priority is not committed |
| `RcLanConfirmation.AbsenceIsShown` | `components/robot_safety/robot_safety_rc_lan_interlock_model.c:66-98` | how a silent receiver and an absent channel are shown |
| `ControlLan.Handle.constructor` | `components/control_lan/control_lan.c:1063-1118` | a session without stream |
| `ControlLan.Handle.CallBack` | `components/control_lan/control_lan.c:577-579` | the application is called with the event, and the log keeps it |
| `ControlLan.Handle.Retire` | `components/control_lan/control_lan.c:552-558` | the stream is forgotten, the gap counter stays |
| `ControlLan.Handle.EnforceAuthority` | `components/control_lan/control_lan.c:560-594` | a stream whose authority is gone is stopped and forgotten whatever the answer |
| `ControlLan.Handle.ValidateEventOrder` | `components/control_lan/control_lan.c:522-550` | the order check gives the specified rejection |
| `ControlLan.Handle.CommitEventOrder` | `components/control_lan/control_lan.c:596-637` | the session after the answer of the application |
| `ControlLan.Handle.HandlePacket` | `components/control_lan/control_lan.c:823-881` | the session part of a packet makes the specified calls and leaves the specified session |
| `ControlLanRuns.RunKeepsInvariant` | `components/control_lan/control_lan.c:522-637` | the session agrees with the log of calls in every run |
| `ControlLanRuns.CommandReachesArmedStream` | `components/control_lan/control_lan.c:522-637` | a COMMAND reaches the application only on the stream of an accepted ARM, above every accepted sequence since, with the LAN allowed and in the authority epoch of that ARM |
| `ControlLanRuns.NoCommandIsReplayed` | `components/control_lan/control_lan.c:535-538` | a stream and sequence that was accepted comes back only after a new ARM of the stream |
| `ControlLanRuns.CallIsFromPacket` | `components/control_lan/control_lan.c:823-881` | a call that is not a STOP of the session itself is the event of one packet, with the authority read for it |
| `ControlLanRuns.SwitchIsStopped` | `components/control_lan/control_lan.c:851-874` | the first stop call after an accepted ARM comes before any ARM call for another stream, and is either the STOP of the session itself for exactly the old stream, or the STOP or DISARM packet of a client |
| `ControlLanRuns.SwitchInOnePacket` | `components/control_lan/control_lan.c:851-881` | within one packet a switch makes exactly a STOP call for the old stream, and the ARM call only if that was accepted |
| `ControlLanRuns.SaturateOnce` | `components/control_lan/control_lan_sequence_model.c:10-18` | saturating each gap and saturating the sum is saturating once |
| `ControlLanRuns.NextBalances` | `components/control_lan/control_lan.c:596-637` | every step keeps session and account of the log in agreement |
| `ControlLanRuns.GapsAreExact` | `components/control_lan/control_lan.c:609-633` | over every run the gap counter is min(2^32 - 1, numbers left out inside the armed streams) |
| `ControlLanRuns.CommandCrossesNoTakeover` | `components/control_lan/control_lan.c:560-566` | with the authority read from the interlock, no committed takeover lies between the ARM of a stream and a COMMAND on it that reaches the application |
| `ControlLanAnswers.PollStopsIff` | `components/control_lan/control_lan.c:560-594` | a poll stops exactly a stream that is active without its authority, and forgets it whatever the application answers |
| `ControlLanAnswers.StopIsDelivered` | `components/control_lan/control_lan.c:522-607` | a STOP or DISARM packet reaches the application in every session and under every authority, as the last call, and leaves no stream active |
| `ControlLanAnswers.CommandIsDeliveredIff` | `components/control_lan/control_lan.c:529-540` | a COMMAND packet reaches the application exactly when its stream is the live one and its sequence is above the last accepted one; every other COMMAND does what a poll does |
| `ControlLanAnswers.CommandAnswer` | `components/control_lan/control_lan.c:529-540` | which condition the answer to a COMMAND names |
| `ControlLanAnswers.ArmIsDeliveredIff` | `components/control_lan/control_lan.c:541-881` | an ARM packet reaches the application exactly when the LAN is allowed, its sequence is above that of its live stream, and the STOP of another live stream is accepted; which condition its answer names |
| `ControlLanAnswers.ArmStartsStream` | `components/control_lan/control_lan.c:596-637` | an accepted ARM makes its stream the live one under this authority; otherwise the same live stream stays and any other is gone |
| `ControlLanAnswers.NothingIsKept` | `components/control_lan/control_lan.c:552-558` | in every run a session without stream remembers nothing of one |
| `PpmMotion.Source.Init` | `components/ppm_motion_source/ppm_motion_model.c:158-170` | initialises exactly for a valid configuration |
| `PpmMotion.Source.StepNow` | `components/ppm_motion_source/ppm_motion_model.c:172-291` | one input takes the state to the specified one and gives the specified output |
| `PpmMotion.Source.Speak` | `components/ppm_motion_source/ppm_motion_model.c:242-290` | the part that arms and commands |
| `PpmMotion.AxisRange` | `components/ppm_motion_source/ppm_motion_model.c:106-134` | an axis lies in -1 to 1, is zero exactly in the dead band and full exactly from the calibrated end on |
| `PpmMotion.AxisIsMonotone` | `components/ppm_motion_source/ppm_motion_model.c:106-134` | more stick never means less on a forward axis, and never more on a reversed one |
| `PpmMotion.ScaleRange` | `components/ppm_motion_source/ppm_motion_model.c:136-150` | the speed scale stays between its two ends, above zero and at most one |
| `PpmMotionRuns.RunKeepsInvariant` | `components/ppm_motion_source/ppm_motion_model.c:172-291` | phase, priority, stream and pending count fit together in every run |
| `PpmMotionRuns.IntentsAreInOrder` | `components/ppm_motion_source/ppm_motion_model.c:172-291` | the intents of every run are a prefix of (STOP (ARM COMMAND*)* STOP)* |
| `PpmMotionRuns.WhatIntentsNeed` | `components/ppm_motion_source/ppm_motion_model.c:172-291` | ARM and COMMAND need a new frame with priority, ARM a neutral one, COMMAND an active application; STOP is exactly a change of priority |
| `PpmMotionRuns.CommandIsBounded` | `components/ppm_motion_source/ppm_motion_model.c:265-289` | a COMMAND asks for axes in -1 to 1, zero exactly for a stick in its dead band, and a scale between its ends |
| `PpmMotionRuns.OneIntentPerFrame` | `components/ppm_motion_source/ppm_motion_model.c:184-190` | over any stretch of a run there are no more ARMs and COMMANDs than new frame numbers |
| `PpmMotionRuns.NonceCountsArms` | `components/ppm_motion_source/ppm_motion_model.c:251-255` | the stream number is determined by the count of ARMs |
| `PpmMotionRuns.StreamsAreFresh` | `components/ppm_motion_source/ppm_motion_model.c:251-263` | two ARMs carry the same stream exactly when the number of ARMs between them is a multiple of 2^64 - 1 |
| `PpmMotionRuns.LiveStreamOrigin` | `components/ppm_motion_source/ppm_motion_model.c:242-290` | a live stream goes back to its ARM with nothing but its own COMMANDs since |
| `PpmMotionRuns.CommandsAreNumbered` | `components/ppm_motion_source/ppm_motion_model.c:265-269` | COMMANDs of a stream are numbered 2, 3, 4 and so on modulo 2^64, after the application has become active and stayed so |
| `PpmMotionAnswers.AxisDirection` | `components/ppm_motion_source/ppm_motion_model.c:106-134` | an axis points forward exactly above its dead band and backward exactly below it, the other way round when reversed |
| `PpmMotionAnswers.AxisIsLinear` | `components/ppm_motion_source/ppm_motion_model.c:106-134` | between dead band and end it grows in proportion to the pulse |
| `PpmMotionAnswers.ScaleIsLinear` | `components/ppm_motion_source/ppm_motion_model.c:136-150` | the speed knob: its ends, and in proportion between them |
| `PpmMotionAnswers.PriorityIff` | `components/ppm_motion_source/ppm_motion_model.c:60-104` | priority needs a heard receiver, four readable channels and an active switch; neutral means both sticks at rest |
| `PpmMotionAnswers.IntentIff` | `components/ppm_motion_source/ppm_motion_model.c:172-291` | which input yields a STOP, an ARM or a COMMAND, in both directions |
| `PpmMotionAnswers.PhaseIff` | `components/ppm_motion_source/ppm_motion_model.c:192-250` | which phase follows; the second frame after an unanswered ARM gives it up |
| `PpmMotionAnswers.UnansweredArmIsGivenUp` | `components/ppm_motion_source/ppm_motion_model.c:213-228` | in every run an ARM that waits for the application has seen at most one other frame since |
| `PpmMotionAnswers.AnotherIff` | `components/ppm_motion_source/ppm_motion_model.c:184-190` | in every run a frame counts as another one exactly when it is the first that is heard or has another number than the last one |
| `PpmMotionAnswers.CommandFollowsTheSticks` | `components/ppm_motion_source/ppm_motion_model.c:265-289` | a COMMAND goes where the sticks point and as fast as the knob allows |
| `PpmDecoder.Decoder.Init` | `components/ppm_decoder/ppm_decoder_model.c:6-23` | initialises exactly for a valid configuration |
| `PpmDecoder.Decoder.Publish` | `components/ppm_decoder/ppm_decoder_model.c:42-49` | the frame in progress is copied to the published channels |
| `PpmDecoder.Decoder.FeedRisingEdge` | `components/ppm_decoder/ppm_decoder_model.c:25-78` | one edge takes the state to the specified one |
| `PpmDecoder.Decoder.FeedPulse` | `components/ppm_decoder/ppm_decoder_model.c:39-77` | so does the width it ends |
| `PpmDecoder.Start` | `components/ppm_decoder/ppm_decoder_model.c:60-61` | the frame in progress starts behind the last gap, or at the first width |
| `PpmDecoder.ClosedSegment` | `components/ppm_decoder/ppm_decoder_model.c:39-54` | a gap closes a complete segment exactly when the widths since the last gap have as many channels as configured |
| `PpmDecoder.DecoderRefinesBatch` | `components/ppm_decoder/ppm_decoder_model.c:25-78` | after any edges the published channels are those of the latest gap-delimited segment with exactly the configured number, across clock wrap-around and count saturation |
| `PpmDecoder.PublishesIff` | `components/ppm_decoder/ppm_decoder_model.c:39-54` | an edge reports a frame exactly when it closes a complete segment |
| `PpmDecoder.WidthsAreConserved` | `components/ppm_decoder/ppm_decoder_model.c:25-78` | every width is a gap, invalid, stored or an overflow, and every gap closes a complete, incomplete or empty segment |
| `PpmDecoder.CountersAreTallies` | `components/ppm_decoder/ppm_decoder_model.c:25-78` | every counter is its unbounded count modulo 2^32, and rejected equals incomplete |
| `PpmDecoder.LastValidIsItsEnd` | `components/ppm_decoder/ppm_decoder_model.c:39-54` | after any edges the time of the last valid frame is that of the edge that closed the latest complete segment, and zero if there is none |
| `PpmDecoder.NoFrameHasNoAge` | `components/ppm_decoder/ppm_decoder_model.c:88-90` | without any complete segment the age says that there was no frame |
| `PpmDecoder.FrameAgeIsRightIff` | `components/ppm_decoder/ppm_decoder_model.c:88-90` | in any run the age of the latest frame is right exactly when the clock did not show zero at its end; else it says that there was no frame |
| `PpmDecoder.FrameCanEndAtZero` | `components/ppm_decoder/ppm_decoder_model.c:39-54` | a run of three edges that publishes such a frame |
| `PeriodicDeadline.StepComesCloser` | `components/robot_composition/robot_composition.c:2434-2437` | every step comes closer to the end of the reached half or leaves it, whatever the period |
| `PeriodicDeadline.NextPeriodicDeadline` | `components/robot_composition/robot_composition.c:2427-2439` | for every period the loop ends, at the first slot from the first on that the clock has not reached |
| `PeriodicDeadline.ReachedInTrueTime` | `components/robot_composition/robot_composition.c:2419-2422` | the signed comparison is right for times less than half the range apart |
| `PeriodicDeadline.FindsNextDeadlineIff` | `components/robot_composition/robot_composition.c:2427-2439` | it is the true next deadline exactly when the period ends no more than half the range of the clock after now |
| `PeriodicDeadline.AdmittedPeriodsAreRight` | `components/robot_driver_factory/robot_driver_factory.c:117-120` | so it is for every period that the driver factory admits |
| `PeriodicDeadline.FirstUnreachedIsLeastAfter` | `components/robot_composition/robot_composition.c:2427-2439` | in true time that slot is the least multiple of the period after now, and only that one |
| `HilText.DecimalIsInjective` | `tools/hil_runner.py:1712-1713` | different numbers have different texts |
| `HilText.HoleRenders` | `tools/hil_runner.py:1712-1713` | a hole renders as what fills it, whatever follows |
| `HilText.RenderedWords` | `tools/hil_runner.py:1712-1713` | the words of a rendered command are those of its template, each rendered on its own |
| `HilText.FirstWordStays` | `tools/hil_runner.py:1712-1713` | a first word without placeholder stays the first word, whatever the values are |
| `HilText.UnfilledHoleFails` | `tools/hil_runner.py:1712-1718` | a hole that cannot be filled fails the whole template |
| `HilManifest.VerbNamed` | `tools/hil_runner.py:45-53` | a command is recognised only by one of the seven names |
| `HilManifest.Visit` | `tools/hil_runner.py:654-882` | one step of the walk admits the step exactly when it fits the flags, and moves the flags as specified |
| `HilManifest.ValidateGates` | `tools/hil_runner.py:335-413` | exactly four gates, each with its own contract, right before the motion |
| `HilManifest.ValidateManifest` | `tools/hil_runner.py:416-905` | admits exactly the programs whose sections, steps, counts and gates fit |
| `HilManifest.IdsOfWalk` | `tools/hil_runner.py:656-663` | the walk knows the ids of all steps behind it and nothing else |
| `HilManifest.ScanHasMeaning` | `tools/hil_runner.py:640-860` | what the flags of the walk mean about the steps walked over |
| `HilManifest.AcceptedIsProgram` | `tools/hil_runner.py:640-905` | an admitted program has distinct ids and sets one speed, directly after its four gates in order; the first answer to it is as required and comes before any stop of the endpoint; the standstill is verified once, after such a stop |
| `HilManifest.ProgramIsAccepted` | `tools/hil_runner.py:640-905` | every such program with well-formed sections and well-formed steps is admitted |
| `HilManifest.AcceptsIff` | `tools/hil_runner.py:416-905` | so the walk with its flags and counters admits exactly these programs |
| `HilManifest.SmallestIs` | `tools/hil_runner.py:812-826` | the least size of a speed other than zero within the bounds |
| `HilManifest.StandstillIsNoAnswer` | `tools/hil_runner.py:820-831` | an endpoint that did not move cannot pass for one that did |
| `HilRunner.Prepare` | `tools/hil_runner.py:1588-1684` | open, identify and stop: without error the stop was acknowledged, the identity is the expected one and the one endpoint is the target, within its limits; connected exactly when open succeeded and no signal hid it |
| `HilRunner.RunStep` | `tools/hil_runner.py:1686-1803` | one step: at most one act, the request of the step, and none when the time is up or a placeholder cannot be filled; without error it was sent and its reply passed |
| `HilRunner.RunSteps` | `tools/hil_runner.py:1686-1803` | the steps run in order until one fails; those before it have passed |
| `HilRunner.VerifyStandstill` | `tools/hil_runner.py:1398-1440` | settle and observe; standing exactly when both succeeded |
| `HilRunner.CleanUp` | `tools/hil_runner.py:1814-1834` | a last stop, after a motion the observation of the standstill, and the close; clean exactly when all of them succeeded, unless a signal ends it |
| `HilRunner.Begin` | `tools/hil_runner.py:1588-1812` | the preparation and the steps up to the error that ends them, every reply the gateway's own |
| `HilRunner.Run` | `tools/hil_runner.py:1442-1871` | refuses exactly the listed cases without sending anything; every other run leaves the specified record, with the gateway's own replies and a reason for its end |
| `HilRuns.StepsAreInPlace` | `tools/hil_runner.py:1686-1803` | a step in the trace is at its own place behind the preparation and in front of the clean-up, with the texts that its template renders to |
| `HilRuns.VerbSurvives` | `tools/hil_runner.py:1731-1738` | rendering cannot change what a command asks for |
| `HilRuns.OneSpeedPerRun` | `tools/hil_runner.py:884-905` | whatever the gateway answers and the variables hold, at most one command that sets a speed is sent in a run |
| `HilRuns.SpeedIsGated` | `tools/hil_runner.py:1676-1686` | a speed is set only directly after the four passed gates in order, behind an acknowledged stop of everything and the expected identity, with a non-zero value within the bounds of program and endpoint |
| `HilRuns.SentSpeedIsChecked` | `tools/hil_runner.py:1711-1713` | the command that sets the speed names the target endpoint and exactly the checked value, if the name of the motion variable has no dot and is not endpoint_id |
| `HilRuns.SpeedIsRenderedIff` | `tools/hil_runner.py:456-460` | the template is filled with every value of the motion variable exactly for such names |
| `HilRuns.EndpointIdIsSent` | `tools/hil_runner.py:1711-1713` | a speed by the name of endpoint_id sends the id of the endpoint in its place |
| `HilRuns.UnreadableSpeedIsNeverSent` | `tools/hil_runner.py:1711-1718` | with a dotted name and no variable named like the part before the dot, no speed is sent and the run does not pass |
| `HilRuns.PassedSpeedIsAcknowledged` | `tools/hil_runner.py:1731-1743` | when that step passes, the last line of the answer acknowledges exactly this speed for this endpoint |
| `HilRuns.PassedGateMeans` | `tools/hil_runner.py:1744-1790` | what a passed gate has seen: the prescribed fields with their values, and the number |
| `HilRuns.LastStopIsSentIff` | `tools/hil_runner.py:1588-1817` | the last stop of everything is sent exactly when the connection was opened and noted and no signal arrived right behind the body, and then behind every step |
| `HilRuns.UnstoppedIff` | `tools/hil_runner.py:1814-1817` | a run with a step goes without a last stop exactly when a signal arrives there, and then it leaves no status |
| `HilRuns.PassIff` | `tools/hil_runner.py:1836-1863` | PASS is reported exactly when the connection was opened, every step has passed, the clean-up was verified and no signal came behind the last step |
| `HilRuns.PassMeansStopped` | `tools/hil_runner.py:1814-1863` | a passed run has set its one speed, then stopped everything with acknowledgement, then seen the healthy target endpoint stand still |
| `HilMotionRuns.ObservationWords` | `tools/hil_runner.py:1711-1713` | an observation is sent to the endpoint of the program, whatever the variables hold |
| `HilMotionRuns.GatesAreAnswered` | `tools/hil_runner.py:335-413` | in every run four questions and their answers stand directly in front of a speed: an active composition, an idle platform, a running supervision, and the healthy endpoint standing still |
| `HilMotionRuns.StopIsOfTheEndpoint` | `tools/hil_runner.py:1711-1743` | every stop of an endpoint in a run names the endpoint of the program, and passes only when the last line says exactly that |
| `HilMotionRuns.TurnsTheRightWay` | `tools/hil_runner.py:820-831` | a number within the tolerance of the response has the sign of the speed |
| `HilMotionRuns.PassMeansMoved` | `tools/hil_runner.py:1731-1790` | in every passed run the target endpoint was observed after the speed and before any stop: one healthy record of its own, with a number within the tolerance of the speed asked for, not zero and of its sign |
| `HilOutcomes.StatusIff` | `tools/hil_runner.py:1836-1863` | the status by the error of the run and the verification of its clean-up |
| `HilOutcomes.FailedGateAborts` | `tools/hil_runner.py:1804-1812` | a run that breaks off in a gate is aborted for safety, whatever made the gate fail, and has set no speed |
| `HilOutcomes.FailMeansContradiction` | `tools/hil_runner.py:1744-1800` | FAIL is reported only when an expected answer contradicts the assertion of a step that is no gate: another endpoint, a required field, or a number too far away |
| `HilOutcomes.ContradictionMeansFail` | `tools/hil_runner.py:1744-1800` | and such a contradiction always makes the run fail once its clean-up is verified |
| `HilOutcomes.StepsMeetTheTarget` | `tools/hil_runner.py:1606-1675` | no step runs on another board or firmware, or without the one available endpoint that the program names, within its limits |
| `HilOutcomes.IdentifiedIff` | `tools/hil_runner.py:1606-1675` | and the steps may begin exactly when this is so |
| `HilOutcomes.AdmitsIff` | `tools/hil_runner.py:1442-1560` | which jobs are admitted: clean firmware with forty hexadecimal digits, the profile, three confirmations, and a given non-zero speed within the bounds of the program |
| `HilOutcomes.PassesIff` | `tools/hil_runner.py:1731-1800` | a reply lets its step pass exactly when it came, was the expected one, and confirms the assertion |
| `HilOutcomes.BreakIsFailure` | `tools/hil_runner.py:1731-1812` | a run breaks off behind a step that was sent only when its reply does not let it pass or a sleep has overrun |
| `HilOutcomes.AcknowledgedIff` | `tools/hil_runner.py:1370-1390` | a stop of everything is acknowledged by the exact text as the last line |
| `HilOutcomes.StandingIff` | `tools/hil_runner.py:1398-1435` | an observation shows the standstill exactly when it is one record of the endpoint with every required field and a number within the tolerance of zero |
| `HilOutcomes.GoodRunPasses` | `tools/hil_runner.py:1588-1863` | an undisturbed run with every answer as hoped for passes: nothing else keeps it from it |
| `HilOutcomes.ConnectedIff` | `tools/hil_runner.py:1588-1600` | connected exactly when the port has opened and no signal hid it |
| `HilExamples.StepsArePlain` | `tests/hil/specs/capabilities/single_endpoint_velocity_l4.json:77-210` | every step of the velocity program of the repository is well formed, under any name of its speed |
| `HilExamples.IsProgram` | `tests/hil/specs/capabilities/single_endpoint_velocity_l4.json:77-210` | its motion, its answer and its standstill are where they have to be |
| `HilExamples.EveryNameIsAdmitted` | `tests/hil/specs/capabilities/single_endpoint_velocity_l4.json:1-211` | so the program is admitted under every name of its speed, also with a dot or as endpoint_id |
| `HilExampleRun.GatePasses` | `tools/hil_runner.py:1731-1790` | an answer that every gate of the program lets pass |
| `HilExampleRun.WrongRunIsRecorded` | `tools/hil_runner.py:1588-1863` | a run of it that no check objects to |
| `HilExampleRun.WrongSpeedIsSent` | `tools/hil_runner.py:1711-1713` | and that sends a speed of 1 where 3 was asked for and checked |

## Left out

- Tasks, sockets, UART, GPIO, flash, Wi-Fi, downloads and logging: the model has steps and answers instead.
- Parsing of packets, authentication, response text, and detail strings.
- Finiteness and range tests of floating point (NaN, infinity, DBL_MAX, DBL_TRUE_MIN) and rounding: numbers are reals, the finiteness of a command is a flag.
- Status snapshots, and the fields that only they show: last decision, reason and publish result, applied revision, packet counters other than the sequence gaps.
- NULL arguments of the C functions: a reference is always present, except where the source gives absence a meaning (no calibration table).
- Start, stop and teardown of the motion service, and its status and control ports.
- The position and single-endpoint paths of the actuation coordinator, which repeat the pattern of the velocity path.
- Boards, buses, pins, the validation of the devices themselves, steering axes and radio settings of the robot profile: endpoints with their devices and the geometry decide about motion.
- The steering controller, the servo and motor drivers, `robot_state_service.c` and `robot_control.c`.
- The rest of the calibration tool: smoothing, harmonics, correlation, robust statistics and reports.
- Evidence files of a hardware test, the parsing of answers into records and numbers, values of another JSON type than expected, timeouts of single commands, and signals outside the section that the runner guards.
- Letter case of characters that the names of commands and fields cannot contain.
- HilManifest.ValidateManifest: gives one verdict instead of the first error message.
- RobotProfile.Validate: is about endpoints and geometry, with the errors of the sections named above left out.
