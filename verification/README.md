# Polishing robot drivers: a verified model

The repository drives a mobile polishing robot: a lift on an RS485 bus, two traction
drives on CANopen, a fieldbus I/O head, a safety PLC, and a script that keeps the
parameter files on the robot up to date.  This project models the parts of those
drivers that hold state and take decisions, and proves what they guarantee over every
input and every run.

`dafny verify dfyconfig.toml` checks everything.

## How it is organised

* `Bytes`, `Bits`, `ModbusBits`: little-endian integers, bit operations on naturals,
  and the coil packing of section 6.1 and 6.2 of the MODBUS Application Protocol
  V1.1b3.
* The lift.  `LiftFrames` is the frame codec and the incremental scanner; `LiftSpec`
  says as functions what each callback and each poll tick does; `LiftDriverNode` is the
  driver as a class whose fields the callbacks update, with the scanning loop, each
  method proved to compute its function.  `LiftInvariant`, `LiftAlarm`, `LiftResume`,
  `LiftHoming`, `LiftMotion`, `LiftRelease`, `LiftStill` and `LiftReports` prove the
  results over arbitrary runs of callbacks and ticks with a clock that never goes back.  A tick's received bytes are an
  arbitrary input, so the results hold for every behaviour of the drive.
* The traction drives.  `DriveHandover` is the hand-over between interlock changes and
  the detached workers, as interleaved steps of any number of threads.  `PdoMapping`
  runs the SDO writes on the drive's object dictionary, and `PdoLayout` reads the frames
  of both sides by the mapping that results.  `EnableTasks` is the task that
  brings one drive into operation, cut into single accesses, and any number of them side
  by side.  `MotorControl` is the controller class; between any two of its accesses an arbitrary script decides how
  much time passes and what arrives.  `VelocityPath` holds the kinematic formulas over
  reals, and `DriveNode` the two nodes around the controller.
* `CrevisOutput`: the output word of the I/O head in its two write modes, with requests
  that fail before or after they took effect.
* `SafetyEstop`: signal tables, FC02 reads and the aggregated emergency stop.
* `ParamMerge`: the additive merge of parameter files.

## Main results

1. The scanner hands on the same frames however the stream is cut into reads, and
   never discards a byte; well-formed replies arrive exactly and in order.
2. The lift sends no absolute move before its origin was set, sets the origin only from
   a fresh, alarm-free tick right after a stop command, and a stall that sets it is a
   real standstill of the required length.  A homing runs down at its configured speed and
   ends exactly at the bottom, on a standstill, or when its time is up.
3. While an alarm lasts the lift's ticks send only monitor requests, stops and alarm
   resets; automatic resets are limited and paced; an interrupted move is resumed to
   its own target, and only so often.
4. A blocked manual command is released within a stated time, however often it is sent
   again, and no command is released before the axis stood still for that time or reached
   the lower limit.
5. At most one drive worker holds the transition flag.  Without a reset no interlock
   change is lost.  With one, everything can come to rest with the drives enabled and
   the interlock open: exactly when they are enabled and either a change was dropped
   because the reset held the flag, or the reset overrode a goal already committed, but
   not both.  They are marked enabled exactly when the last step that drove them turned
   them on and succeeded.
6. The PDO remap leaves exactly the mapping asked for, and succeeds exactly when the
   list fits and the drive gives up the PDO, whatever else is on the bus; a reset never
   touches a drive that stays in operation; configurations of a drive are at least five
   seconds apart.  However the tasks that enable the drives mix, each does what it would
   do alone, each drive is sent its own task's frames in order, and a control word goes
   out only after the drive had followed the one below it.  A drive that asks for it
   outside its window is configured by the next reset, and a configured drive and the
   controller read each other's frames as they were meant.
7. The I/O head's image is the same after the same answered commands in both modes.
8. No emergency is reported exactly when both blocks were read and the PLC's image
   shows every source clear and the power on.
9. Odometry is within one pulse of the command in force, through every byte on the way;
   a command that is too old stops the base.
10. The merge keeps every user line, and goes through exactly when every template entry
    can be looked up.  An added key lands in its own node exactly when no node added
    later goes to the same place and no other entry of the file stands between the
    node's header and the insertion point.  An entry the user has is never written again
    exactly when no missing node has one of them between its header and what the program
    takes for its end in the template.  An entry here is any unindented line that is
    neither blank nor a comment, whether or not the program takes it for a header.

## Where the code and its documentation differ

The model follows the code.

* The lift driver's header and the interface document say that an interrupted homing is
  resumed after an alarm, or that the alarm counts as reaching the lower limit
  (`catkin_ws/src/lift_driver/include/lift_driver/lift_driver_node.hpp:36-37` and
  `170-172`, `docs/INTERFACE.txt:379-380`).  The code aborts the homing and does not
  set the origin.  `LiftResume.PendingResumeMeansAlarm` shows that the branch which
  would resume a homing is never taken.
* The comment at `catkin_ws/src/motor_driver/src/motor_driver_node.cpp:149-150` says no
  target is lost because the running transition re-evaluates.  A reset worker does not
  re-evaluate: `DriveHandover.ResetLosesAChange` is a run that drops a change, and
  `DriveHandover.ResetOverridesAChange` one in which a reset decided on earlier turns
  the drives on after the change was dealt with.  At present both interlock
  subscriptions and their callbacks are commented out (lines 45-50 and 98-110), so the
  interlocks do not change and neither run can happen until they are put back.
* `scripts/sync_param.py:9` says a missing key goes to the end of its node's block.
  `ParamMerge.TieMisplacesKey` is a pair of files for which it ends up in a node added
  with it.  A header that does not end in its colon, such as `b: # note`, is not taken
  for one (lines 25-29): its lines count as the node's above it, whose missing key goes
  into `b`, as in `ParamMerge.KeyLandsInTheNext`.  `ParamMerge.KeyLandsInItsNode` says
  exactly when neither happens.  In a node indented by four spaces the program sees no
  key at all (lines 32-38), so a missing key goes right behind the header, in front of
  the user's lines, which then read as its continuation: `ParamMerge.DeepNode`.
* `scripts/sync_param.py:7` promises never to change a value the user has.  The block of
  a node whose header is directly followed by another header keeps the end of the file
  as its end (lines 49-53), so adding such a node writes all later nodes again:
  `ParamMerge.EmptyNodeRepeatsTheNext`.  And a block takes in every entry that is not a
  header, such as `b: 5`, so adding a node writes those below it again:
  `ParamMerge.PlainEntryIsRepeated`.  Both stand behind the user's own, and a YAML reader
  that lets the last one win replaces the user's values.  `ParamMerge.UserNodesStayOnce`
  says exactly when that does not happen.
* The status decoder (`catkin_ws/src/motor_driver/src/motor_controller.cpp:279-310`) has a
  state for quick stop, but tests the enabled bits first: a drive that shows the quick
  stop of CiA 402 reads as in operation, and a recovery leaves it alone:
  `MotorControl.DecoderAgrees`.
* The safety node checks the signals it is given against the polled block, but not its
  default tables (`catkin_ws/src/safety_io_driver/src/safety_io_node.cpp:540`): with
  sixteen inputs and the defaults it starts, and a poll that reads both blocks reads past
  the first: `SafetyEstop.DefaultsCanOverrun`.

## Model

| member | source | states |
|---|---|---|
| Bytes.Le16RoundTrip | catkin_ws/src/lift_driver/src/lift_driver_node.cpp:20 | two bytes, low first, are read back as the signed value that was written |
| Bytes.Le32RoundTrip | catkin_ws/src/lift_driver/src/lift_driver_node.cpp:21-24 | the same for four bytes, signed and unsigned |
| LiftFrames.LeftoverIsShort | catkin_ws/src/lift_driver/src/lift_driver_node.cpp:617-632 | what a scan leaves is a suffix of at most 260 bytes, so the clearing of a buffer over 512 bytes never acts |
| LiftFrames.ScanSplits | catkin_ws/src/lift_driver/src/lift_driver_node.cpp:617-631 | scanning two stretches at once is scanning the first, then its leftover with the second |
| LiftFrames.ChunkIndependence | catkin_ws/src/lift_driver/src/lift_driver_node.cpp:609-633 | for every split of a stream into reads, the frames handed on and the leftover are those of one scan |
| LiftFrames.AlteredByteBreaksSum | catkin_ws/src/lift_driver/src/lift_driver_node.cpp:144-146 | one altered byte always breaks the zero-sum test |
| LiftFrames.AlteredReplyIsRejected | catkin_ws/src/lift_driver/src/lift_driver_node.cpp:617-630 | a reply with one altered byte other than its length is not taken for a frame |
| LiftFrames.AlteredLengthCanPass | catkin_ws/src/lift_driver/src/lift_driver_node.cpp:619-625 | for every address and parameter there is a reply whose altered length byte makes another frame of it |
| LiftFrames.AlteredLengthExactly | catkin_ws/src/lift_driver/src/lift_driver_node.cpp:617-630 | an altered length byte passes exactly when, shortened, the bytes cut off make up for the change or, lengthened, the bytes that follow are there and do; and what the scanner does in each case |
| LiftFrames.RoundTrip | catkin_ws/src/lift_driver/src/lift_driver_node.cpp:609-633 | any sequence of well-formed replies, each after noise without the host byte, is delivered exactly, in order, with nothing left |
| LiftFrames.RoundTripInReads | catkin_ws/src/lift_driver/src/lift_driver_node.cpp:609-633 | the same when the stream arrives in arbitrary reads |
| LiftSpec.CommandsArrive | catkin_ws/src/lift_driver/src/lift_driver_node.cpp:133-242 | a drive that frames its input the same way recovers exactly the commands sent, arguments included |
| LiftSpec.MonitorValuesRecovered | catkin_ws/src/lift_driver/src/lift_driver_node.cpp:635-650 | a monitor reply leaves exactly the speed, status, position and inputs it carries, whatever came before it and however much of the stream had already arrived |
| LiftSpec.LimitMeansInputsOff | catkin_ws/src/lift_driver/src/lift_driver_node.cpp:165-169 | the lower limit is seen exactly in fresh data with every masked input off |
| LiftInvariant.StepKeeps | catkin_ws/src/lift_driver/src/lift_driver_node.cpp:244-588 | every callback and every tick keeps the invariant: origin and log agree, an active alarm means manual mode, counters within limits, a pending resume only during an alarm |
| LiftInvariant.OriginSafety | catkin_ws/src/lift_driver/src/lift_driver_node.cpp:273-292 | over every run: homed exactly when the origin was set, no absolute move before that, and each setting directly after a stop command |
| LiftHoming.OriginTick | catkin_ws/src/lift_driver/src/lift_driver_node.cpp:527-579 | the origin is set only by a tick in homing mode before its timeout, with fresh data and a clear alarm bit, at the lower limit or on a stall |
| LiftHoming.StallIsSound | catkin_ws/src/lift_driver/src/lift_driver_node.cpp:545-579 | on the stall branch an earlier tick of the same attempt exists since which all data was fresh, no position left the window, and the stall time passed; the minimum time passed since the event that began the attempt |
| LiftHoming.StallHappens | catkin_ws/src/lift_driver/src/lift_driver_node.cpp:545-579 | a run whose homing stalls and sets the origin, to which the two results above apply |
| LiftMotion.StepHomesDown | catkin_ws/src/lift_driver/src/lift_driver_node.cpp:332-333 | whatever happens, a homing is set to the direction opposite to up, at the configured homing speed or else the manual one |
| LiftMotion.HomingTickExactly | catkin_ws/src/lift_driver/src/lift_driver_node.cpp:495-579 | over any run, a homing tick sends that speed or a stop; sets the origin exactly if the time since the attempt began is not up and fresh data shows the bottom or a standstill; and goes on homing exactly if neither holds |
| LiftMotion.TargetIsLastMove | catkin_ws/src/lift_driver/src/lift_driver_node.cpp:273-308 | over any run, the target of a move under way or waiting is where the last move frame sent leads, counted from the position last reported if it is relative |
| LiftMotion.MoveEndsExactly | catkin_ws/src/lift_driver/src/lift_driver_node.cpp:580-587 | a tick ends a move exactly on an alarm, for the automatic homing, or when fresh data is within the tolerance of the target |
| LiftMotion.AlarmFollowsDrive | catkin_ws/src/lift_driver/src/lift_driver_node.cpp:370-429 | after a tick with fresh data the alarm state is the alarm bit of the status; nothing else changes it |
| LiftMotion.TextDrives | catkin_ws/src/lift_driver/src/lift_driver_node.cpp:244-263 | "up", "down" and "stop" drive up, down and stop, faster once the origin is set; other texts do nothing |
| LiftMotion.SpeedDrives | catkin_ws/src/lift_driver/src/lift_driver_node.cpp:265-271 | a speed command is sent as it is and ends any move, homing and pending resume |
| LiftMotion.MoveIsSent | catkin_ws/src/lift_driver/src/lift_driver_node.cpp:273-308 | a move command is sent as it is exactly without an alarm and, for an absolute one, with an origin |
| LiftMotion.HomeCommand | catkin_ws/src/lift_driver/src/lift_driver_node.cpp:310-345 | a homing request is honoured exactly without an alarm and with a speed; giving it up stops it |
| LiftMotion.ResetCommand | catkin_ws/src/lift_driver/src/lift_driver_node.cpp:348-364 | a reset request sends one alarm reset, after a stop during an alarm, and renews all budgets |
| LiftMotion.AutoHomesOnce | catkin_ws/src/lift_driver/src/lift_driver_node.cpp:699-704 | exactly when a tick homes by itself, which is at most once in a run |
| LiftMotion.DriveKnowsSpeed | catkin_ws/src/lift_driver/src/lift_driver_node.cpp:535-573 | over any run the drive was last told the speed for moves that is configured, and the scaled one once the origin is set |
| LiftReports.LastReportCounts | catkin_ws/src/lift_driver/src/lift_driver_node.cpp:635-650 | the position is that of the last frame that reports one |
| LiftReports.LastMonitorCounts | catkin_ws/src/lift_driver/src/lift_driver_node.cpp:635-650 | speed, status and inputs are those of the last monitor reply |
| LiftReports.PositionRecovered | catkin_ws/src/lift_driver/src/lift_driver_node.cpp:645-649 | a position reply leaves exactly its position |
| LiftReports.FreshExactly | catkin_ws/src/lift_driver/src/lift_driver_node.cpp:686-694 | over any run, data is fresh exactly while a tick within the timeout received a report |
| LiftAlarm.AlarmTick | catkin_ws/src/lift_driver/src/lift_driver_node.cpp:370-448 | what a tick that ends in an alarm adds to the log, the attempts and the reset time |
| LiftAlarm.AlarmSilence | catkin_ws/src/lift_driver/src/lift_driver_node.cpp:682-707 | from the tick an alarm rises to the one it clears, ticks send only monitor requests, velocity 0 and alarm resets, whatever mode was active |
| LiftAlarm.AutoResetBudget | catkin_ws/src/lift_driver/src/lift_driver_node.cpp:422-448 | one episode without a manual reset sends at most the configured number of alarm resets, and gives up only having sent exactly that many |
| LiftAlarm.AutoResetPaced | catkin_ws/src/lift_driver/src/lift_driver_node.cpp:422-428 | an automatic alarm reset follows the episode's last one by at least the interval |
| LiftMotion.AutoResetExactly | catkin_ws/src/lift_driver/src/lift_driver_node.cpp:422-448 | a tick of an alarm sends an automatic reset exactly if the data is fresh, one is due and one is left, and gives up exactly if one is due and none is left |
| LiftAlarm.LastResetIsLast | catkin_ws/src/lift_driver/src/lift_driver_node.cpp:442-445 | the time the pacing result speaks of is that of the latest alarm reset in the log |
| LiftResume.PendingResumeMeansAlarm | catkin_ws/src/lift_driver/src/lift_driver_node.cpp:465-476 | a pending resume means an active alarm and a stopped axis, and is never a homing, so this branch is unreachable |
| LiftResume.RiseRemembersMove | catkin_ws/src/lift_driver/src/lift_driver_node.cpp:394-397 | a position move under way when an alarm rises becomes the pending resume with its target |
| LiftResume.ClearTick | catkin_ws/src/lift_driver/src/lift_driver_node.cpp:412-420 | the clearing tick resumes exactly when a move is pending within budget, and otherwise sends nothing more |
| LiftResume.ResumeIsExact | catkin_ws/src/lift_driver/src/lift_driver_node.cpp:451-484 | a resumed move has the target held when the alarm rose, sent absolutely if homed and else as the distance left |
| LiftResume.CyclesStep | catkin_ws/src/lift_driver/src/lift_driver_node.cpp:486-493 | the resume count starts afresh exactly with the commands acted on and the motion ends, and else grows only by resuming |
| LiftResume.ResumesAreBounded | catkin_ws/src/lift_driver/src/lift_driver_node.cpp:455-463 | with a positive limit a run resumes at most that often per command the driver acts on or motion end |
| LiftRelease.BlockedCommandIsReleased | catkin_ws/src/lift_driver/src/lift_driver_node.cpp:175-203 | an unchanged manual command, sent again or not, on an axis that stays put and is not homed automatically, is stopped by max(start, command time + grace) + stop time + two tick periods, whatever ignored events come between |
| LiftRelease.CommandLeft | catkin_ws/src/lift_driver/src/lift_driver_node.cpp:153-158 | the same speed again, or an event the driver ignores, does not restart the watch |
| LiftRelease.NegativeThreshold | catkin_ws/src/lift_driver/src/lift_driver_node.cpp:181-194 | with a negative threshold exactly a down command at the lower limit is still released |
| LiftStill.ReleaseIsSound | catkin_ws/src/lift_driver/src/lift_driver_node.cpp:175-203 | over any run, a command is released only down at the lower limit, or after the grace and with all judging ticks of the stop time within the threshold |
| LiftStill.BottomReleases | catkin_ws/src/lift_driver/src/lift_driver_node.cpp:181-185 | a down command at the lower limit is released at once |
| LiftDriverNode.LiftDriver.constructor | catkin_ws/src/lift_driver/src/lift_driver_node.cpp:56-116 | parameters are clamped and the driver starts in the initial state of the run results |
| LiftDriverNode.LiftDriver.SendFrame | catkin_ws/src/lift_driver/src/lift_driver_node.cpp:133-148 | the bytes built one by one are the request frame with its zero-sum checksum |
| LiftDriverNode.LiftDriver.SendVelocity | catkin_ws/src/lift_driver/src/lift_driver_node.cpp:151-161 | sends the speed; the watch restarts exactly when the speed changes |
| LiftDriverNode.LiftDriver.ReadAndParse | catkin_ws/src/lift_driver/src/lift_driver_node.cpp:609-633 | the indexed loop with one erase at the end is one scan of leftover and chunk, every frame handled in order |
| LiftDriverNode.LiftDriver.RequestAlarmReset | catkin_ws/src/lift_driver/src/lift_driver_node.cpp:433-448 | stop and reset frames, time and attempt, or giving up at the limit |
| LiftDriverNode.LiftDriver.ResumeAfterAlarm | catkin_ws/src/lift_driver/src/lift_driver_node.cpp:451-484 | computes the resume function of the run results |
| LiftDriverNode.LiftDriver.UpdateAlarm | catkin_ws/src/lift_driver/src/lift_driver_node.cpp:370-429 | computes the alarm function of the run results |
| LiftDriverNode.LiftDriver.UpdateMotion | catkin_ws/src/lift_driver/src/lift_driver_node.cpp:495-588 | computes the motion function of the run results |
| LiftDriverNode.LiftDriver.ReleaseIfBlocked | catkin_ws/src/lift_driver/src/lift_driver_node.cpp:175-203 | computes the release function of the run results |
| LiftDriverNode.LiftDriver.HomeCallback | catkin_ws/src/lift_driver/src/lift_driver_node.cpp:310-345 | starts, refuses or aborts a homing as the run results assume |
| LiftDriverNode.LiftDriver.PollTimer | catkin_ws/src/lift_driver/src/lift_driver_node.cpp:682-707 | one tick: monitor request, receiving, alarm before motion, release |
| LiftDriverNode.LiftDriver.Spin | catkin_ws/src/lift_driver/src/lift_driver_node.cpp:733-741 | any sequence of events leaves the object in the state the run results speak of |
| DriveHandover.AtMostOneWorker | catkin_ws/src/motor_driver/src/motor_driver_node.cpp:151-177 | in every interleaving at most one worker stands between taking and giving back the transition flag |
| DriveHandover.NextKeeps | catkin_ws/src/motor_driver/src/motor_driver_node.cpp:133-184 | every step keeps mutex and flag ownership and the bookkeeping of changes not yet dealt with |
| DriveHandover.QuietIsSettled | catkin_ws/src/motor_driver/src/motor_driver_node.cpp:133-309 | once everything has finished, the committed goal is what the interlocks ask for exactly when no change was dropped; and the drives are on against the interlocks exactly when they are on and either a change was dropped or a reset overrode the goal, but not both |
| DriveHandover.EnabledIsLastDrive | catkin_ws/src/motor_driver/src/motor_driver_node.cpp:163-164 | in every interleaving the drives are marked enabled exactly when the last step that drove them turned them on and succeeded |
| DriveHandover.FailuresNeverEnable | catkin_ws/src/motor_driver/src/motor_driver_node.cpp:163-164 | if no drive command succeeds they are never marked enabled |
| DriveHandover.NoChangeIsLost | catkin_ws/src/motor_driver/src/motor_driver_node.cpp:112-184 | without a reset the final goal is what the interlock inputs ask for, the drives were last driven to it, and they are enabled exactly if it is on and that succeeded |
| DriveHandover.ResetLosesAChange | catkin_ws/src/motor_driver/src/motor_driver_node.cpp:290-309 | a run whose reset starts at rest with the interlock closed and the flag clear, drops a change, and ends with the drives enabled although the interlock is open |
| DriveHandover.ResetOverridesAChange | catkin_ws/src/motor_driver/src/motor_driver_node.cpp:290-300 | such a run with nothing dropped and the right committed goal, whose late reset ends with the drives enabled although the interlock is open |
| PdoMapping.SdoDecodes | catkin_ws/src/motor_driver/src/motor_controller.cpp:157-164 | a drive reads back the command, index, sub-index and value of each SDO write |
| PdoMapping.DictionaryGuards | catkin_ws/src/motor_driver/src/motor_controller.cpp:157-179 | the dictionary the writes are run against: no mapping change of an existing PDO, no entry change under a count, and each accepted write changes one field |
| PdoMapping.EntriesServed | catkin_ws/src/motor_driver/src/motor_controller.cpp:172-177 | the first sixty-four entry writes are accepted one after the other |
| PdoMapping.EntriesRefused | catkin_ws/src/motor_driver/src/motor_controller.cpp:172-177 | a longer list is refused |
| PdoMapping.RemapExact | catkin_ws/src/motor_driver/src/motor_controller.cpp:152-185 | all writes are accepted exactly when the list fits and the drive yields the PDO; then mapping, count, COB-ID and type are exactly those asked for and no other PDO changed |
| PdoMapping.OnlyHeardMatters | catkin_ws/src/motor_driver/src/motor_controller.cpp:152-185 | what a drive makes of a bus is what it makes of its own SDOs and network commands |
| PdoMapping.RemapOnABusyBus | catkin_ws/src/motor_driver/src/motor_controller.cpp:152-185 | remapping is as exact with any other frames between the writes |
| PdoMapping.RemapAllExact | catkin_ws/src/motor_driver/src/motor_controller.cpp:101-111 | several remaps leave each PDO as asked for and every other as it was |
| PdoMapping.ConfigurationTakes | catkin_ws/src/motor_driver/src/motor_controller.cpp:97-115 | after reset, five remaps and start the drive is started with exactly those mappings |
| PdoMapping.ConfigurationOnABusyBus | catkin_ws/src/motor_driver/src/motor_controller.cpp:97-115 | and so is the whole configuration |
| PdoMapping.OtherDrivesUntouched | catkin_ws/src/motor_driver/src/motor_controller.cpp:154 | the writes for one drive leave every other drive as it was |
| PdoLayout.StatusArrives | catkin_ws/src/motor_driver/src/motor_controller.cpp:531-537 | the status word a configured drive puts into its PDO is the one stored |
| PdoLayout.VelocityArrives | catkin_ws/src/motor_driver/src/motor_controller.cpp:538-546 | and so is its actual velocity |
| PdoLayout.ControlArrives | catkin_ws/src/motor_driver/src/motor_controller.cpp:269-277 | a control word and its mode reach a configured drive as such |
| PdoLayout.SpeedArrives | catkin_ws/src/motor_driver/src/motor_controller.cpp:209-216 | a speed in pulses reaches it as its target velocity |
| MotorControl.AbsorbedNodes | catkin_ws/src/motor_driver/src/motor_controller.cpp:504-557 | arrivals leave windows and speed commands alone, never withdraw a request, and raise one only outside the window |
| MotorControl.CalmKeepsHealthy | catkin_ws/src/motor_driver/src/motor_controller.cpp:526-537 | arrivals that do not say otherwise keep a drive in operation with nothing pending |
| MotorControl.DecoderAgrees | catkin_ws/src/motor_driver/src/motor_controller.cpp:279-310 | the status decoder agrees with CiA 402 on every state but quick stop, which reads as in operation |
| MotorControl.DecoderElsewhere | catkin_ws/src/motor_driver/src/motor_controller.cpp:279-310 | on words the standard gives no state: which bit wins, and exactly when quick stop is read |
| MotorControl.RequestCounts | catkin_ws/src/motor_driver/src/motor_controller.cpp:128-141 | a boot-up or a loss of feedback marks exactly its drive, and exactly outside its window |
| MotorControl.RequestIsKept | catkin_ws/src/motor_driver/src/motor_controller.cpp:504-557 | one such arrival among any others is enough |
| EnableTasks.Independent | catkin_ws/src/motor_driver/src/motor_controller.cpp:350-424 | however the turns of the tasks mix, each task gets where it would get on its own turns alone and does the same |
| EnableTasks.TaskFrames | catkin_ws/src/motor_driver/src/motor_controller.cpp:354-415 | a task has sent exactly the mode, the fault reset if it found a fault, and the control words of the rungs it reached |
| EnableTasks.TaskHistory | catkin_ws/src/motor_driver/src/motor_controller.cpp:354-415 | a task acts only if its first look does not show operation, clears a fault exactly if its second shows one, sends each further control word only after the one below was sent and its state read after that, and succeeds exactly if it read operation last at the start or on the top rung |
| EnableTasks.TaskStory | catkin_ws/src/motor_driver/src/motor_controller.cpp:350-415 | all of that for every task of every interleaving |
| EnableTasks.LadderInOrder | catkin_ws/src/motor_driver/src/motor_controller.cpp:383-414 | in every interleaving, switch on is sent only after shut down was sent and ready read after it, and enable operation only after switch on was sent and switched on read after it |
| EnableTasks.TasksEnd | catkin_ws/src/motor_driver/src/motor_controller.cpp:312-415 | every task is over after at most 1216 turns of its own, whatever the others do |
| EnableTasks.TaskPace | catkin_ws/src/motor_driver/src/motor_controller.cpp:365-414 | a task waits 50 ms after the mode, 100 ms before each control word, 200 ms after a fault reset, and 10 ms between two looks |
| EnableTasks.GivesUp | catkin_ws/src/motor_driver/src/motor_controller.cpp:312-348 | a task gives up only on a fault or two seconds after its last frame |
| EnableTasks.DriveSees | catkin_ws/src/motor_driver/src/motor_controller.cpp:350-424 | for distinct drives, the frames on the bus that command a drive are exactly those its own task sent, in order |
| EnableTasks.HealthyIsSpared | catkin_ws/src/motor_driver/src/motor_controller.cpp:357-362 | a drive that every look finds in operation is sent nothing by any task |
| MotorControl.MotorController.constructor | catkin_ws/src/motor_driver/src/motor_controller.cpp:25-58 | every listed drive is configured once, and the spacing invariant holds |
| MotorControl.MotorController.RequestReinit | catkin_ws/src/motor_driver/src/motor_controller.cpp:128-141 | a request counts exactly for a known drive outside its window |
| MotorControl.MotorController.ReinitPending | catkin_ws/src/motor_driver/src/motor_controller.cpp:143-150 | true exactly when some listed drive waits to be configured |
| MotorControl.MotorController.CanCallback | catkin_ws/src/motor_driver/src/motor_controller.cpp:504-557 | boot-ups request, status and velocity reports are stored, anything else is ignored |
| MotorControl.MotorController.SetupPdoMapping | catkin_ws/src/motor_driver/src/motor_controller.cpp:152-185 | the loop sends exactly the writes the dictionary results speak of |
| MotorControl.MotorController.ConfigureNode | catkin_ws/src/motor_driver/src/motor_controller.cpp:73-125 | sends the whole configuration, records the start, and disturbs no other drive |
| MotorControl.MotorController.BeginConfiguration | catkin_ws/src/motor_driver/src/motor_controller.cpp:83-93 | opens the window and drops request, cached status and speed command |
| MotorControl.MotorController.WaitForState | catkin_ws/src/motor_driver/src/motor_controller.cpp:312-348 | true exactly when the last reading is the target; none before it is target or fault; at most one reading per 10 ms of the timeout |
| MotorControl.MotorController.EnableMotor | catkin_ws/src/motor_driver/src/motor_controller.cpp:350-424 | the tasks run side by side in any order of turns; true exactly if every task succeeded, and only if every listed drive was read in operation; every drive not in operation is told to get ready; a drive that stays in operation gets no frame; the bus carries for each of distinct drives what its task sent |
| MotorControl.MotorController.ConfirmAll | catkin_ws/src/motor_driver/src/motor_controller.cpp:259-266 | for distinct drives, true exactly when the latest reading of each shows it in operation |
| MotorControl.MotorController.ResetMotor | catkin_ws/src/motor_driver/src/motor_controller.cpp:231-267 | all of that, and pending drives are configured again and every drive not in operation is fault-reset |
| MotorControl.RecoverAfter | catkin_ws/src/motor_driver/src/motor_controller.cpp:128-141 | a drive that asks outside its window is configured by the next reset, whatever arrives until then |
| MotorControl.Operate | catkin_ws/src/motor_driver/src/motor_controller.cpp:73-141 | whatever is called and whatever arrives, two configurations of one of distinct drives start at least five seconds apart |
| MotorControl.MotorController.SyncOnce | catkin_ws/src/motor_driver/src/motor_controller.cpp:187-198 | one speed frame per drive in order, then the sync frame |
| VelocityPath.LimitBounds | catkin_ws/src/motor_driver/src/base_controller_node.cpp:66-67 | a positive limit bounds the magnitude and leaves smaller commands alone; no limit leaves all alone |
| VelocityPath.InForceMeans | catkin_ws/src/motor_driver/src/base_controller_node.cpp:60-67 | a command that is too old counts as zero; any other is the target with each component within its own limit |
| VelocityPath.DrivesForward | catkin_ws/src/motor_driver/src/base_controller_node.cpp:77-87 | both shafts turn forward to drive forward |
| VelocityPath.TurnsLeft | catkin_ws/src/motor_driver/src/base_controller_node.cpp:77-87 | to turn left the right wheel is the faster, on the side the swap says |
| VelocityPath.OneTurn | catkin_ws/src/motor_driver/src/base_controller_node.cpp:99-101 | one turn of the wheel is one circumference |
| VelocityPath.WhichWay | catkin_ws/src/motor_driver/src/motor_controller.cpp:201-216 | the sign of the pulses: drive 2 is mirrored, and a negative direction mirrors once more |
| VelocityPath.MeasuredStill | catkin_ws/src/motor_driver/src/base_controller_node.cpp:55-103 | without a command the base is measured at rest, exactly |
| VelocityPath.PulseError | catkin_ws/src/motor_driver/src/motor_controller.cpp:209-216 | truncation to pulses loses less than one pulse and never grows a speed |
| VelocityPath.ReportedError | catkin_ws/src/motor_driver/src/motor_controller.cpp:201-228 | mirroring and direction cancel: a drive that turns as commanded is reported within one pulse and never faster |
| VelocityPath.WheelInverse | catkin_ws/src/motor_driver/src/base_controller_node.cpp:77-101 | the two conversions between wheel speed and shaft speed are inverse |
| VelocityPath.OdometryError | catkin_ws/src/motor_driver/src/base_controller_node.cpp:65-103 | measured speed within one pulse of the command, turn rate within two pulses over the separation, for every swap, direction and sign of gear |
| DriveNode.BaseController.ControlTimer | catkin_ws/src/motor_driver/src/base_controller_node.cpp:55-87 | an old command gives zero speeds; any other those of the target with each component within its limit; unusable parameters give zero |
| DriveNode.BaseController.VelocityCallback | catkin_ws/src/motor_driver/src/base_controller_node.cpp:89-113 | exactly when a message is measured and over which time; without a wheel separation only the speed is |
| DriveNode.MotorDriverNode.constructor | catkin_ws/src/motor_driver/src/motor_driver_node.cpp:27-37 | directions are signs, and a list of the wrong length leaves all of them +1 |
| DriveNode.MotorDriverNode.CmdCallback | catkin_ws/src/motor_driver/src/motor_driver_node.cpp:80-96 | a command reaches the drives only if long enough and enabled, each with its own direction, the later one for a drive listed twice |
| DriveNode.MotorDriverNode.VelocityMessage | catkin_ws/src/motor_driver/src/motor_driver_node.cpp:197-204 | feedback is published with the direction of its drive |
| DriveNode.OnePass | catkin_ws/src/motor_driver/src/motor_controller.cpp:209-228 | through tick, node, frames, reports and message: an old command measures exactly zero, any other within a pulse of the limited target |
| ModbusBits.UnpackInvertsPack | catkin_ws/src/crevis_io_driver/src/crevis_io_node.cpp:116-118 | the client reads back exactly the coils a conforming server packed |
| CrevisOutput.LastCommandShows | catkin_ws/src/crevis_io_driver/src/crevis_io_node.cpp:305-319 | each output shows the last command for it that took effect |
| CrevisOutput.UncommandedStays | catkin_ws/src/crevis_io_driver/src/crevis_io_node.cpp:305-319 | an output without a command that took effect stays as it was |
| CrevisOutput.ClearedBits | catkin_ws/src/crevis_io_driver/src/crevis_io_node.cpp:388-406 | shutting down turns off exactly the chosen outputs |
| CrevisOutput.CrevisNode.constructor | catkin_ws/src/crevis_io_driver/src/crevis_io_node.cpp:224-231 | a poll reads the whole word in register mode and every output in use |
| CrevisOutput.CrevisNode.Rebuild | catkin_ws/src/crevis_io_driver/src/crevis_io_node.cpp:344-346 | the rebuilt word has exactly the bits that were read |
| CrevisOutput.CrevisNode.SyncOutputShadow | catkin_ws/src/crevis_io_driver/src/crevis_io_node.cpp:293-303 | a synchronised shadow is the image |
| CrevisOutput.CrevisNode.SetOutput | catkin_ws/src/crevis_io_driver/src/crevis_io_node.cpp:305-330 | success changes exactly the bit, failure changes it or nothing, in either mode and after any earlier failures; and exactly when it succeeds |
| CrevisOutput.CrevisNode.Poll | catkin_ws/src/crevis_io_driver/src/crevis_io_node.cpp:332-376 | renews the shadow, leaves the image, and publishes the outputs as they are |
| CrevisOutput.CrevisNode.OnShutdown | catkin_ws/src/crevis_io_driver/src/crevis_io_node.cpp:385-408 | with every request answered exactly the lamps and the charging output are off that are to go off, in both modes; other outputs stay in any case, and nothing is turned on |
| CrevisOutput.Run | catkin_ws/src/crevis_io_driver/src/crevis_io_node.cpp:305-383 | any run in either mode keeps the shadow right and leaves the image its effective commands make |
| CrevisOutput.BothModes | catkin_ws/src/crevis_io_driver/src/crevis_io_node.cpp:305-319 | the same answered commands leave the same image in register and coil mode |
| SafetyEstop.LoadSignals | catkin_ws/src/safety_io_driver/src/safety_io_node.cpp:503-541 | the acceptable elements, each name once, or the defaults if there are none |
| SafetyEstop.AcceptedKeepsFirst | catkin_ws/src/safety_io_driver/src/safety_io_node.cpp:529-536 | the first acceptable element of a name is kept with its own bit |
| SafetyEstop.LoadedFits | catkin_ws/src/safety_io_driver/src/safety_io_node.cpp:540 | the loaded bits fit the polled block exactly when something was accepted or the unchecked defaults fit |
| SafetyEstop.LoadEstopSources | catkin_ws/src/safety_io_driver/src/safety_io_node.cpp:545-588 | exactly the sources that name an input, each with its last polarity |
| SafetyEstop.RegisteredExactly | catkin_ws/src/safety_io_driver/src/safety_io_node.cpp:545-588 | registered is exactly what names an input and stands well-formed in the list |
| SafetyEstop.LastPolarityWins | catkin_ws/src/safety_io_driver/src/safety_io_node.cpp:549-556 | the last such element of a name gives its polarity |
| SafetyEstop.DefaultSources | catkin_ws/src/safety_io_driver/src/safety_io_node.cpp:579-588 | without a list the four default sources, as far as such inputs exist, each active low |
| SafetyEstop.DefaultNodeStops | catkin_ws/src/safety_io_driver/src/safety_io_node.cpp:590-681 | with the defaults: no emergency exactly when both blocks were read and the four source bits and the power bit are high |
| SafetyEstop.ResolvedSound | catkin_ws/src/safety_io_driver/src/safety_io_node.cpp:394-422 | every source names a polled input and the power output a polled output; all three tables fit their blocks exactly when the defaults fit |
| SafetyEstop.ClashFree | catkin_ws/src/safety_io_driver/src/safety_io_node.cpp:396-410 | a start without a clash means all outputs have different names, and the other way round |
| SafetyEstop.RangeFitsRequest | catkin_ws/src/safety_io_driver/src/safety_io_node.cpp:385-395 | a range is valid exactly when it is one request whose addresses fit sixteen bits |
| SafetyEstop.DefaultsCanOverrun | catkin_ws/src/safety_io_driver/src/safety_io_node.cpp:394-422 | parameters with which the node starts although a default bit lies outside the polled block |
| SafetyEstop.Start | catkin_ws/src/safety_io_driver/src/safety_io_node.cpp:385-422 | exactly which parameters are rejected, and what the accepted ones resolve to |
| SafetyEstop.ReadDiscreteInputs | catkin_ws/src/safety_io_driver/src/safety_io_node.cpp:196-230 | a response is accepted exactly if function, byte count and length are right, and unpacked bit by bit |
| SafetyEstop.Fc02Decodes | catkin_ws/src/safety_io_driver/src/safety_io_node.cpp:215-226 | a conforming response is accepted and gives the PLC's bits |
| SafetyEstop.SafetyNode.constructor | catkin_ws/src/safety_io_driver/src/safety_io_node.cpp:440-446 | the first message reports an emergency |
| SafetyEstop.SafetyNode.AnyTriggered | catkin_ws/src/safety_io_driver/src/safety_io_node.cpp:619-639 | the aggregate of the inputs agrees with the published input states |
| SafetyEstop.SafetyNode.PowerLost | catkin_ws/src/safety_io_driver/src/safety_io_node.cpp:640-659 | true exactly when the configured power output is off |
| SafetyEstop.SafetyNode.Poll | catkin_ws/src/safety_io_driver/src/safety_io_node.cpp:590-681 | publishes an emergency on any failed read, any triggered source or lost power, and only then; and every table with the values read; it reads past a block exactly when both were read and a table does not fit |
| SafetyEstop.NoStopMeansClear | catkin_ws/src/safety_io_driver/src/safety_io_node.cpp:590-681 | no emergency exactly when both blocks were read, every source is clear in the PLC's image, and the power output is on there |
| SafetyEstop.Operate | catkin_ws/src/safety_io_driver/src/safety_io_node.cpp:590-694 | in any run, up to a poll that reads past a block, the first message is an emergency and each later one is that of its poll |
| ParamMerge.ParseBlocks | scripts/sync_param.py:41-71 | every node at its last header with its end, each key at its last occurrence with its continuation lines, and the insertion point |
| ParamMerge.HeaderReads | scripts/sync_param.py:25-29 | an unindented name with a colon is a header exactly if only white space follows |
| ParamMerge.KeyReads | scripts/sync_param.py:32-38 | two spaces, a name and a colon set a key; a comment or a deeper line sets none |
| ParamMerge.StripMeans | scripts/sync_param.py:28-37 | stripping removes the white space around a line and nothing else |
| ParamMerge.WithinMeans | scripts/sync_param.py:116 | looking a key up in a text is looking for a substring |
| ParamMerge.ContentEndInside | scripts/sync_param.py:68-70 | the insertion point lies after the node's own header and not after the next one |
| ParamMerge.SpanHasNoName | scripts/sync_param.py:57-67 | none of the lines taken for a key opens another entry of the file |
| ParamMerge.Collect | scripts/sync_param.py:102-125 | the nested loops collect the plan, and an exception ends them before anything is written |
| ParamMerge.AddedExactly | scripts/sync_param.py:104-125 | what is asked for is exactly what the template has, the user lacks and the template's text shows |
| ParamMerge.PlanSucceeds | scripts/sync_param.py:104-125 | no exception stops the program exactly when every template entry has the header lines it needs and a user value that can be searched |
| ParamMerge.NewNodeLines | scripts/sync_param.py:45-53 | a new node is written with the lines up to the next header, and one header, exactly when its header is last or not directly followed by another |
| ParamMerge.NewNodeNames | scripts/sync_param.py:45-53 | a new node is written with no other entry exactly when the template has none between its header and the end the program gives it |
| ParamMerge.HeadersOfResult | scripts/sync_param.py:131-137 | the headers of the result are the user's and the new nodes', and no more, exactly when every new node's header is last or not directly followed by another |
| ParamMerge.NamesOfResult | scripts/sync_param.py:131-137 | the entries of the result are the user's and the new nodes, and no more, exactly when every new node stands alone in the template |
| ParamMerge.KeysOfResult | scripts/sync_param.py:131-137 | under the condition on headers the keys of the result are the user's, the added ones and those of the new nodes |
| ParamMerge.NothingAddedTwice | scripts/sync_param.py:104-137 | on the two files: the entries are the user's and the missing nodes exactly when every missing node stands alone, the headers exactly when every missing node's header is clean, and then the keys are as stated; no missing node is one of the user's |
| ParamMerge.UserNodesStayOnce | scripts/sync_param.py:45-53 | every entry the user has stands as often as before exactly when no missing node has one of them in the template between its header and the end the program gives it |
| ParamMerge.EmptyNodeRepeatsTheNext | scripts/sync_param.py:45-53 | a template and a user file for which a node and a key the user has are written again |
| ParamMerge.PlainEntryIsRepeated | scripts/sync_param.py:25-53 | a template and a user file, all headers clean, for which an entry the user has is written again with the template's value |
| ParamMerge.FilePlaced | scripts/sync_param.py:104-125 | new nodes go to the end of the file with exactly the lines parse_blocks gives them, new keys to their node's insertion point with their own line and its continuations |
| ParamMerge.SortByPosition | scripts/sync_param.py:133 | a falling order that keeps the order within each position |
| ParamMerge.InsertAll | scripts/sync_param.py:131-134 | splicing back to front is inserting everything at its original index at once |
| ParamMerge.UserLinesKept | scripts/sync_param.py:131-137 | every user line is in the result, unchanged and in order |
| ParamMerge.LengthsAdd | scripts/sync_param.py:131-137 | the result is as long as the user's file and the inserted lines together |
| ParamMerge.KeyLandsInItsNode | scripts/sync_param.py:104-134 | an added key lies below its own node's header with no other entry between, exactly when no node added later goes to the same position and the user's lines up to the insertion point open no other entry |
| ParamMerge.KeyLandsInTheNext | scripts/sync_param.py:25-29 | a template and a user file for which a missing key is written into the node below |
| ParamMerge.KeyGoesFirst | scripts/sync_param.py:68-70 | a key goes right behind its header exactly when the program sees no key of that node |
| ParamMerge.DeepNode | scripts/sync_param.py:32-70 | in a node indented by four spaces a key goes there, and the user's lines read as its continuation |
| ParamMerge.TieMisplacesKey | scripts/sync_param.py:131-134 | a template and a user file for which the added key ends up under another node |
| ParamMerge.Sync | scripts/sync_param.py:74-138 | created, left alone or merged; exactly when it fails, and then the file is left alone |

## Left out

- DriveHandover.QuietIsSettled: the timers and fault conditions that decide when a reset starts are left open, so a reset may start at any moment after the constructor.
- DriveHandover.ResetLosesAChange: the fault test and the retry interval that hold the reset back are not modelled.
- LiftRelease.BlockedCommandIsReleased: needs a non-negative stall threshold, which the constructor does not check; LiftRelease.NegativeThreshold says what is left without.
- LiftFrames.AlteredReplyIsRejected: leaves out the length byte, for which it is false: LiftFrames.AlteredLengthExactly says when, LiftFrames.AlteredLengthCanPass gives a reply for every address.
- MotorControl.Operate: speaks of distinct drive ids; a list that names a drive twice configures it twice in a row at start.
- PdoMapping.RemapExact: the drive does not check that the mapped objects exist or fit into eight bytes.
- SafetyEstop.SafetyNode.Poll: says nothing of what happens once a bit is read past its block, which is undefined.
- ParamMerge.UserNodesStayOnce: an entry's name is the text before the first colon of an unindented line; quoted names, flow mappings and document markers at the top level are not read as YAML reads them.
- ParamMerge.KeyLandsInItsNode: the same holds for the entries it speaks of.
- DriveNode.OnePass: needs pulse rates that fit 32 bits; the code's cast of a larger one is undefined.
- ParamMerge.Sync: takes the parsed YAML of both files as input, with text keys; reading and joining lines of the files is left out, and so is white space beyond ASCII.
- One clock reading serves one lift event; a run of the code reads the clock a few times within an event.
- The lift's serial port is taken to be open, and write failures, which the code ignores, do not appear.
- Position differences in the lift are unbounded integers; overflow of the 32-bit originals is not modelled.
- Fields of the lift used only for log lines (start and log positions, the alarm seen during homing, the last alarm status) are left out.
- Rounding of floating-point numbers, and the integration of odometry with sine and cosine.
- Malformed or short coil responses in the I/O head's client; its server is taken to conform, and its outputs to be numbered below 32, beyond which the code's shift is undefined.
- Sockets, serial ports, SocketCAN, device locks and reconnecting are outcomes of a request here.
- Disabling the drives (zero speed and one control word per drive) and the error texts of the drives.
- ROS topics, parameters, logging and status texts.
- The battery driver, the teleoperation scripts, launch files, deployment and user interface: straight-line code with nothing to relate.
