# Verified models of the Thalos motion stack

These Dafny modules model the parts of the repository where a mistake would move an arm wrongly,
misjudge a plan or lose an edit, and prove what those parts are for.

* **Firmware of the ESP32 arm controller** (`Manifest*`, `Validator`, `Servo*`, `Executor*`, `Protocol*`,
  `Firmware*`). The waypoint stepper, the command state machine, the manifest validator and the servo
  driver are classes over one heap in which the executor points at the very manifest the protocol
  mutates. Each method is tied to a function on values, and the theorems hold for every sequence of
  loop turns with arbitrary commands at arbitrary times: the shared-manifest invariant, the safety of
  every pulse, the speed limit, the tracking error, the exact trace, scheduling and termination.
  `ExecutorClock` tells them by clock readings, `FirmwareRuns` by the commands a host sends, and `Uploads`
  by the lines of an upload.
* **The wire simulator** (`Simulator*`, `DeviceProtocol`, `Refinement`, `DevicesApart`). Firmware and simulator both
  refine one abstract device protocol, on the commands that both can hold.
* **The trajectory assessor** (`Fuzzy`, `Risk`, `KnowledgeBase`, `Engine`, `EngineProofs`, `Assessor`,
  `Verdicts`). Membership functions, centroid, Mamdani aggregation, forward chaining as a least
  fixpoint, and guarantees of the verdict for every report.
* **The robot graph** (`Names`, `RobotGraph`, `RobotGraphProofs`, `PathSearch`). Deterministic breadth-first
  numbering from an unordered joint map, and path search with backtracking.
* **Program edits** (`ProgramEdit`). An edit language with inverses, undo stacks and redo.
* **Smaller algorithms**: the separating-axis test and its distance form (`BoxSat`, `BoxDistance`), the scene-tree
  validator (`SceneValidator`), the one-pass semantic advisor (`SemanticExpert`).

Every `float` and `double` is a `real`. The 32-bit words of the ESP32 wrap explicitly (`Words`).
Clock readings, incoming lines and the iteration order of hash maps are parameters. The PWM writes a
device receives are logged in a field of its driver. `dafny verify dfyconfig.toml` checks everything.

Where the code and its own comments disagree, the model follows the code:

* `executor.cpp:74-75` and `246-250` call the first write of an execution and of a repeated pass a no-op, never a
  jump. The reset to the first waypoint is not a write, so the arm may be elsewhere: `ExecutorPasses` gives the exact
  conditions.
* `protocol.cpp:345` names IDLE and COMPLETED for SAMPLES; it is served in READY too, where it frees the buffer of the
  execution to come, whose trace is then lost (`FirmwareRuns`).
* `executor.cpp:52-53` says sample 0 has dt 0; nothing checks it, and the validator counts that dt while
  the executor does not (`ManifestTiming`).
* `validator.cpp:95` speaks of coverage without overlap, `validator.cpp:117` of a first dt of 0; overlap and any first dt are accepted.
* `kb.rs:179` announces 12 rules; there are 11.
* `esp-simulator.rs:43` and its constant say protocol version 1; the handler requires 2, as the firmware does.
* `semantic.rs:120` describes S08 as an oscillation without any pick or place; a pick or place before the
  second of the three moves does not prevent it.
* `distance.rs:95-98` calls its result the minimum separation distance or, negative, the minimum translation that
  separates. For boxes apart it is the gap along the first axis that shows one, a lower bound of the distance. For boxes
  that overlap it is minus the least overlap, and the overlap on an edge axis is in units of that axis, of length at most
  1, and so can fall short of the depth. `BoxDistance` says exactly when the gap is the distance, and that for boxes of
  one orientation the overlap is the depth.
* `program_edit.rs:225-226` calls inverses exact once the captures are filled in; a replacement by nothing is not undone, whatever it captured.

## Model

| member | source | states |
|---|---|---|
| `Validators.CoverageSound` | firmware/esp32/src/validator.cpp:94-114 | An accepted manifest leaves no sample index uncovered, in whatever order its segments come and even where a 32-bit segment end wraps. |
| `Validators.CoverageExact` | firmware/esp32/src/validator.cpp:94-114 | For segments with non-decreasing starts and ends within the declared total, acceptance is the same as covering every sample. |
| `Validators.CoverageIff` | firmware/esp32/src/validator.cpp:94-114 | Exactly the segment lists accepted, in any order and with ends that wrap: every segment starts at the first sample or no later than an earlier end, and the greatest end is the number of samples. |
| `Validators.UnsortedCoverageRefused` | firmware/esp32/src/validator.cpp:94-114 | Two segments that cover everything but start out of order are refused: acceptance is more than coverage. |
| `Validators.ScanCovers` | firmware/esp32/src/validator.cpp:99-111 | Every index before the point the gap scan reaches lies in some segment. |
| `Validators.SortedScanComplete` | firmware/esp32/src/validator.cpp:99-113 | With sorted starts and ends in range the scan reaches the total just when no index from its starting point on is left out. |
| `Validators.ValidateManifest` | firmware/esp32/src/validator.cpp:6-44 | The loops with early return return the verdict of the specification: the first failing check in order (empty, dof, count, envelope, order, coverage, timing), or valid. |
| `Validators.VerdictTells` | firmware/esp32/src/validator.cpp:6-44 | The reason given is that of the first check that fails, and there is none exactly when all seven pass. |
| `Validators.CheckSegmentsCoverAllSamples` | firmware/esp32/src/validator.cpp:94-114 | The loop over segments decides the gap scan, on wrapping 32-bit ends. |
| `Validators.CheckTimingIntegrity` | firmware/esp32/src/validator.cpp:116-142 | The accumulating loop accepts just when the sum of every dt is within 1% (at least 1000 us) of the declared duration. |
| `ManifestTiming.ValidatorCountsFirstDt` | firmware/esp32/src/validator.cpp:124-127 | The validator's total exceeds the pass duration the executor uses by exactly the dt of the first sample. |
| `Servos.ServoDriver.Write` | firmware/esp32/src/servo_driver.cpp:28-63 | All or nothing: accepted exactly when the driver is ready, all four joints are there and inside the envelope; then four transactions follow, one on the output of each channel, each with the step count nearest to the calibrated line through the ends of the joint at the angle asked for; a refused waypoint sends nothing. |
| `Servos.PCA9685Driver.Begin` | firmware/esp32/src/pca9685_driver.cpp:33-40 | The loop sends sixteen writes, one to each output, that silence it. |
| `Servos.PCA9685Driver.SetPWM` | firmware/esp32/src/pca9685_driver.cpp:45-63 | One call logs one transaction, both counts saturated to 12 bits; channels above 15 are ignored. |
| `Servos.BurstIsSafe` | firmware/esp32/src/servo_driver.cpp:28-92 | Every pulse of an accepted waypoint lies between the step counts of its channel's shortest and longest pulse. |
| `Servos.PulseFollowsAngle` | firmware/esp32/src/servo_driver.cpp:67-92 | The map from angle to pulse meets the calibration at both ends of each joint and rises strictly between; step counts never fall. |
| `Servos.StepsAreNearest` | firmware/esp32/src/servo_driver.cpp:82-92 | Inside the 12-bit range the step count is the nearest to the nominal one. |
| `Servos.StepsInRange` | firmware/esp32/src/servo_driver.cpp:67-92 | A joint inside its limits maps to a step count inside the safe range of its channel. |
| `Servos.PoseMovesArm` | firmware/esp32/src/servo_driver.cpp:28-63 | After such a burst the last transaction on every output commands the joint of its channel. |
| `Executors.Executor.LoadManifest` | firmware/esp32/src/executor.cpp:42-61 | Points at the shared manifest, resizes the fixed buffer to one pass, sums the pass duration on the 32-bit clock and resets the counters; the whole new state is the specification's. |
| `Executors.Executor.StartExecution` | firmware/esp32/src/executor.cpp:63-86 | Resets index, target, trace and position to the first waypoint, takes the start and the last write from its two clock readings, and runs; does nothing when nothing was loaded. |
| `Executors.Executor.UpdateAt` | firmware/esp32/src/executor.cpp:96-101 | One update of the object equals one update of the specification, including the register writes it puts on the bus; after one that writes, the outputs command the pose written, which is the new position unless another pass began. |
| `Executors.Executor.ConsumeDue` | firmware/esp32/src/executor.cpp:185-213 | The catch-up loop consumes exactly the due waypoints up to the zero-dt guard, recording each, and returns the last. |
| `Executors.Executor.BoundedMove` | firmware/esp32/src/executor.cpp:222-232 | The clamp loop moves each actuated channel of a copy of the position towards the goal by at most the budget. |
| `Executors.Executor.ClosePass` | firmware/esp32/src/executor.cpp:243-272 | The end of a pass begins the next one in the same buffer, or is done. |
| `Executors.Executor.RecordSample` | firmware/esp32/src/executor.cpp:275-282 | Overwrites the next slot in place, or drops the sample when the buffer is full. |
| `ExecutorScheduling.ConsumeStopsAtZeroDt` | firmware/esp32/src/executor.cpp:185-213 | Among the waypoints one update consumes only the first may have dt 0, and it consumes as far as the clock and that guard allow. |
| `ExecutorScheduling.UpdateAdvances` | firmware/esp32/src/executor.cpp:169-273 | A due update consumes at least one waypoint and never crosses a pass boundary; an update that is not due changes nothing. |
| `ExecutorScheduling.DueUpdatesFinish` | firmware/esp32/src/executor.cpp:169-273 | As many due updates as there are waypoints left over all passes always end in done. |
| `ExecutorScheduling.ZeroDtTakesExactly` | firmware/esp32/src/executor.cpp:178-213 | A manifest whose dt are all zero takes exactly repeat times n updates, at whatever times they come. |
| `ExecutorScheduling.ProgressIsShare` | firmware/esp32/src/executor.cpp:109-125 | The reported progress is exactly the share of all waypoints of all passes that has been consumed. |
| `ExecutorScheduling.ProgressRange` | firmware/esp32/src/executor.cpp:109-125 | Progress lies in [0, 1] and is 1 if and only if the execution is done. |
| `ExecutorScheduling.ProgressNeverDecreases` | firmware/esp32/src/executor.cpp:109-125 | No update, at any time and with any wiring, lowers the progress. |
| `ExecutorTrace.TraceIsExact` | firmware/esp32/src/executor.cpp:169-282 | Loaded, started and run to done at any times, the buffer holds the waypoints of the last pass, once each and in order, each with its planned instant on the 32-bit clock; the capacity is never exceeded on the way. |
| `ExecutorTrace.StampsExactIff` | firmware/esp32/src/executor.cpp:194-213 | The recorded stamps are (repeat - 1) * pass + the sum of dt themselves if and only if the whole execution fits the 32-bit clock. |
| `ExecutorTrace.StampMonotone` | firmware/esp32/src/executor.cpp:243-269 | Planned instants never decrease, within a pass and from pass to pass. |
| `ExecutorTrace.UpdateTraces` | firmware/esp32/src/executor.cpp:169-282 | Every update keeps the trace fields exact: slots below the cursor hold the consumed waypoints of this pass with their stamps. |
| `ExecutorMotion.BoundedInEnvelope` | firmware/esp32/src/executor.cpp:215-232 | The envelope is convex: a clamped move between two points inside stays inside. |
| `ExecutorMotion.UpdateIsSafe` | firmware/esp32/src/executor.cpp:169-273 | An update keeps the position in the envelope, and writes exactly when a waypoint fell due and a ready driver has all four joints: the envelope never makes a write fail. |
| `ExecutorMotion.UpdateSpeed` | firmware/esp32/src/executor.cpp:169-240 | One update moves each joint by at most top speed times the clamped time since the last write, whatever the wrapping clock reads. |
| `ExecutorMotion.SpeedInUnits` | firmware/esp32/src/executor.cpp:178-182 | A second of travel is 1, 1, 2 and 0.5 on the four channels, and travel is proportional to time. |
| `ExecutorMotion.HourOfTravel` | firmware/esp32/src/executor.cpp:215-240 | However long the arm was left alone, one update moves it no further than an hour of travel. |
| `ExecutorMotion.SpeedOverStretch` | firmware/esp32/src/executor.cpp:169-240 | Over any stretch of one pass the arm moves no further than top speed allows between its first and last write, however the updates were scheduled. |
| `ExecutorPasses.SpeedAcrossPassesIff` | firmware/esp32/src/executor.cpp:243-269 | For a followable plan kept to punctually, whose last write of the pass is at least as late as any other: the speed limit carries into the next pass if and only if the plan ends in the pose it begins with. |
| `ExecutorPasses.BoundaryJump` | firmware/esp32/src/executor.cpp:243-269 | In any punctual pass the first write of the next one moves each joint by no more than the way from the last waypoint to the first, plus what the worst lateness and the time since leave to travel. |
| `ExecutorPasses.SpeedAcrossStartIff` | firmware/esp32/src/executor.cpp:63-86 | Across a start, an arm last sent to a pose is moved within its top speed if and only if that pose is the first waypoint. |
| `ExecutorPasses.PassBoundaryJumps` | firmware/esp32/src/executor.cpp:243-269 | A repeated one-radian turn that the validator accepts, loaded, started and updated on time to the microsecond: at the boundary the arm is sent back at once. |
| `ExecutorTracking.PlanSpeed` | firmware/esp32/src/executor.cpp:169-240 | Speed limits between neighbouring waypoints add up over any stretch of the plan. |
| `ExecutorTracking.UpdateTracks` | firmware/esp32/src/executor.cpp:169-238 | One punctual update keeps the tracking invariant for the worst lateness including its own. |
| `ExecutorTracking.TrackingError` | firmware/esp32/src/executor.cpp:169-238 | At every point of a punctual execution of a followable plan each joint is within top speed * (worst lateness of this pass - lateness of the last write) of the waypoint last consumed. |
| `ExecutorTracking.StartTracks` | firmware/esp32/src/executor.cpp:63-86 | From any start of a loaded executor the bound holds, the gap between its two clock readings counting as lateness. |
| `ExecutorClock.StartReadsTheClock` | firmware/esp32/src/executor.cpp:63-86 | After a start of a loaded executor at the readings t0 and t1, and through any updates, the pass began at t0 or at the reading that closed the pass before it, and the last write was at t1 or at the reading that last wrote or began a pass. |
| `ExecutorClock.FallsDueIff` | firmware/esp32/src/executor.cpp:169-213 | Told by readings alone, an update consumes waypoint k of its pass if and only if the time since the reading that began the pass has reached the planned instant of k, and no waypoint after the next one up to k has dt 0. |
| `ExecutorClock.FirstWrite` | firmware/esp32/src/executor.cpp:63-86 | The first update of an execution sends the arm no further from the first waypoint than top speed allows since the second reading of the start. |
| `ExecutorClock.TrackingByReadings` | firmware/esp32/src/executor.cpp:169-238 | The tracking bound holds from the start on with lateness, punctuality and pass beginnings told by readings alone. |
| `Protocols.Protocol.PollLine` | firmware/esp32/src/protocol.cpp:29-71 | One poll of the object (notice completion, then handle at most one line) equals the specification's, over the shared manifest and executor. |
| `Protocols.Protocol.HandleManifest` | firmware/esp32/src/protocol.cpp:96-135 | Declares an upload, its fields as 32-bit words read them, and empties the shared manifest, or sets the error state; whole new state stated. |
| `Protocols.Protocol.HandleSample` | firmware/esp32/src/protocol.cpp:168-259 | Appends one waypoint and acknowledges every chunk-th; each malformed line sets its own error. |
| `Protocols.Protocol.HandleEndUpload` | firmware/esp32/src/protocol.cpp:261-276 | Validates, then loads the executor with this very manifest and is ready, or fails with the validator's reason. |
| `Protocols.Protocol.HandleSamples` | firmware/esp32/src/protocol.cpp:344-379 | Returns the first recorded samples asked for and then clears the buffer, in READY as much as in COMPLETED. |
| `Protocols.Protocol.HandleStop` | firmware/esp32/src/protocol.cpp:289-299 | Halts the executor and resets the protocol and the manifest. |
| `Uploads.SampleLineIff` | firmware/esp32/src/protocol.cpp:168-259 | A SAMPLE line is taken exactly when an upload is under way, it has as many tokens as declared joints, each a number, the actuated ones within their limits, and a dt that fits a signed word; then one waypoint with those values in their order and that dt is appended, and nothing else of the plan changes. |
| `Uploads.ManifestLineHeld` | firmware/esp32/src/protocol.cpp:96-135 | A MANIFEST line that is taken declares its values, where they fit their words, and empties the plan. |
| `Uploads.UploadIsItsLines` | firmware/esp32/src/protocol.cpp:137-259 | Through any turns of an upload the plan grows by one sample for each SAMPLE line and one segment for each SEGMENT line, value by value and in order. |
| `Uploads.ComesBack` | firmware/esp32/src/protocol.cpp:137-379 | After such an upload and its completed execution, in which no SAMPLES was served, SAMPLES answers one line for each SAMPLE line of the upload, in order and with its joints in order. |
| `Uploads.FetchReturnsFirst` | firmware/esp32/src/protocol.cpp:344-379 | Where SAMPLES is served it answers OK and then the first recorded samples, as many as asked for or as there are, and frees the buffer. |
| `Uploads.StatusTells` | firmware/esp32/src/protocol.cpp:301-342 | While an execution runs, STATUS reports the share of all waypoints consumed and the joints of the next one. |
| `FirmwareModel.PollKeepsInv` | firmware/esp32/src/protocol.cpp:29-71 | Every poll keeps the shared-manifest invariant, whatever line arrives in whatever state. |
| `FirmwareModel.UpdateKeepsInv` | firmware/esp32/src/executor.cpp:96-101 | Every update keeps it, whenever it comes. |
| `FirmwareModel.RunIsSafe` | firmware/esp32/src/main.cpp:69-72 | Over every run of poll and update with arbitrary commands and clock readings: running implies EXECUTING, EXECUTING implies running or done, READY and EXECUTING hold a manifest that passes every check, the position is in the envelope in every state, the trace is exact, every pulse the arm receives is in its safe range, and every turn keeps the speed limit. |
| `FirmwareModel.ManifestFrozen` | firmware/esp32/src/protocol.cpp:96-166 | The manifest changes only in a turn that leaves the executor at rest, and under a running executor only by STOP. |
| `FirmwareModel.ErrorHalts` | firmware/esp32/src/protocol.cpp:431-445 | After an error reply the executor is not running and nothing was written in that turn. |
| `FirmwareModel.OnlyExecuteStarts` | firmware/esp32/src/protocol.cpp:278-287 | A resting arm is written to only after an accepted EXECUTE in READY. |
| `FirmwareModel.LoopRespectsSpeed` | firmware/esp32/src/main.cpp:69-72 | Whatever the turn, the one that executes included, the arm is sent no further from the pose the stepper holds after the poll than top speed allows in the clamped time since the last write. |
| `FirmwareModel.QuietRunIsUpdates` | firmware/esp32/src/main.cpp:69-72 | While only status polls arrive, the loop is the executor's own sequence of updates, so what is proved of those holds of the firmware. |
| `FirmwareRuns.FirmwareTracks` | firmware/esp32/src/main.cpp:69-72 | From the turn that accepts EXECUTE on, while only status polls and greetings arrive and the readings of the turns are punctual, each joint of a followable upload is within the tracking bound of the waypoint last consumed; lateness and punctuality are told by those readings, and whether SAMPLES was served before does not matter. |
| `FirmwareRuns.FirmwareFallsDueIff` | firmware/esp32/src/main.cpp:69-72 | The turn after them consumes waypoint k of the pass under way if and only if its planned instant has come since the turn that began the pass and no waypoint up to it but the next has dt 0. |
| `FirmwareRuns.ExecuteKeepsSpeedIff` | firmware/esp32/src/protocol.cpp:278-287 | For an upload that drives all four joints, an arm last sent to a pose is moved within its top speed across EXECUTE if and only if that pose is the first waypoint. |
| `FirmwareRuns.FetchReturnsPlanIff` | firmware/esp32/src/protocol.cpp:261-379 | From an accepted END_UPLOAD to the completion of its execution: SAMPLES returns the uploaded waypoints in order with their planned instants if and only if no SAMPLES was served in between; then STATUS reports their number, and otherwise it reports 0 samples and none are returned. |
| `FirmwareRuns.SamplesInReadyLoseTheTrace` | firmware/esp32/src/protocol.cpp:344-379 | From power-on, seven concrete commands that execute one waypoint and lose its sample. |
| `FirmwareMain.Firmware.Loop` | firmware/esp32/src/main.cpp:69-72 | One turn over the real objects, executor and protocol sharing one manifest: the invariant holds again, all that was ever sent to the device is still the clearing writes and then safe pulses, and after a turn that writes the last transaction on each output commands the joint of the pose written. |
| `FirmwareMain.Firmware.Setup` | firmware/esp32/src/main.cpp:27-67 | Start-up establishes the invariant: the sixteen clearing writes and an enabled driver if the PCA9685 answered, nothing sent and no driver if not. |
| `Simulator.SimState.Handle` | backend/crates/thalos-runtime/examples/esp-simulator.rs:604-625 | One line handled by the simulator object equals its specification and, in range, is the abstract protocol's answer. |
| `Simulator.ServeConnection` | backend/crates/thalos-runtime/examples/esp-simulator.rs:629-664 | The loop over the lines of a connection, from a fresh simulator: on in-range lines its states and replies are a run of the abstract protocol. |
| `Simulator.SimState.ValidateUpload` | backend/crates/thalos-runtime/examples/esp-simulator.rs:524-578 | The upload checks, loops included, decide the specification's verdict. |
| `SimulatorRun.RampRises` | backend/crates/thalos-runtime/examples/esp-simulator.rs:428-476 | After EXECUTE, polls 0 to 10 times repeat report RUNNING with a progress that starts at 0, never falls and ends at exactly 1. |
| `SimulatorRun.RampStaysInUnit` | backend/crates/thalos-runtime/examples/esp-simulator.rs:478-486 | Every pose reported on the way has the declared number of joints, all in [0, 1]. |
| `SimulatorRun.RunCompletes` | backend/crates/thalos-runtime/examples/esp-simulator.rs:428-520 | The next poll, and no earlier one, completes the run with one pass of samples: stamps inside the last pass and never falling, joints in [0, 1] and never falling, from the arm at rest to the end of the ramp. |
| `SimulatorRun.PollIsEven` | backend/crates/thalos-runtime/examples/esp-simulator.rs:428-462 | Poll k of the ramp reports k of 10 * repeat steps. |
| `SimulatorRun.PoseIsEven` | backend/crates/thalos-runtime/examples/esp-simulator.rs:428-486 | And a pose k of ten steps along the ramp to (j + 1) / dof, which begins anew with every pass. |
| `SimulatorRun.RunIsEven` | backend/crates/thalos-runtime/examples/esp-simulator.rs:499-520 | The recorded samples are evenly spaced: sample i at i whole steps of duration / n after the start of the last pass, its joints i of n - 1 steps along the ramp. |
| `DeviceProtocol.ChunksAcknowledged` | backend/crates/thalos-runtime/examples/esp-simulator.rs:321-354 | Acknowledgements are conserved: accepted samples = chunk * acknowledgements + samples since the last one. |
| `Refinement.FirmwareAnswers` | firmware/esp32/src/protocol.cpp:29-379 | The firmware's answer and new state for one command whose numbers fit the words of both devices are the abstract protocol's. |
| `Refinement.SimulatorAnswers` | backend/crates/thalos-runtime/examples/esp-simulator.rs:254-424 | So are the simulator's, after its internal completion step where it takes one. |
| `Refinement.FirmwareRefines` | firmware/esp32/src/protocol.cpp:29-71 | Every run of the firmware on in-range commands, at any times and with any wiring, is a run of the abstract protocol with the same states and notices. |
| `Refinement.SimulatorRefines` | backend/crates/thalos-runtime/examples/esp-simulator.rs:604-625 | Every run of the simulator on in-range lines is a run of the same protocol. |
| `Refinement.Indistinguishable` | backend/crates/thalos-runtime/examples/esp-simulator.rs:254-424 | From power-on, runs with the same events end in the same protocol state with the same replies, payloads aside. |
| `Refinement.EnvelopeTellsApart` | firmware/esp32/src/protocol.cpp:168-259 | Outside the envelope they differ: the firmware refuses a sample the simulator takes. |
| `DevicesApart.DurationTellsApart` | firmware/esp32/src/protocol.cpp:96-135 | Beyond 32 bits they differ: for an upload of 6000 s the simulator is ready, and the firmware refuses it. |
| `DevicesApart.TooLongForAWord` | firmware/esp32/src/validator.cpp:116-142 | Whatever 32-bit duration it holds, the firmware accepts no upload whose steps take more than 2^32 us and 1%. |
| `Fuzzy.Evaluate` | backend/crates/thalos-intelligence/src/fuzzy.rs:35-79 | A degree of membership is in [0, 1] for any corner points, in order or not. |
| `Fuzzy.ShapeIsPolyline` | backend/crates/thalos-intelligence/src/fuzzy.rs:35-79 | With its corners in order, a shape is the broken line through them, level before the first and after the last. |
| `Fuzzy.TriangleHasOnePeak` | backend/crates/thalos-intelligence/src/fuzzy.rs:35-48 | A triangle with its corners in order reaches full membership at its peak, rises before it and falls after it. |
| `Fuzzy.Centroid` | backend/crates/thalos-intelligence/src/fuzzy.rs:114-124 | The accumulating loop returns the weighted average of the grid midpoints, and 0 when nothing carries weight. |
| `Fuzzy.CentroidByMoment` | backend/crates/thalos-intelligence/src/fuzzy.rs:114-124 | The centroid lies on the side of a point that the moment about it says. |
| `Fuzzy.CentroidBetween` | backend/crates/thalos-intelligence/src/fuzzy.rs:114-124 | The centroid lies between the outermost points that carry weight. |
| `Fuzzy.MomentsOrdered` | backend/crates/thalos-intelligence/src/fuzzy.rs:114-124 | Chebyshev's sum inequality: a weighting whose ratio to another never falls has the later moment. |
| `Fuzzy.CentroidsOrdered` | backend/crates/thalos-intelligence/src/fuzzy.rs:114-124 | And so the later centroid. |
| `Risk.DefuzzifyRisk` | backend/crates/thalos-intelligence/src/lib.rs:260-285 | Max-aggregation of clipped sets and the 100-sample centroid. |
| `Risk.AggregateIsUnion` | backend/crates/thalos-intelligence/src/lib.rs:265-283 | However many rules vote, the aggregate is the union of the four sets, each clipped at its strongest vote. |
| `Risk.AggregateIsGreatest` | backend/crates/thalos-intelligence/src/lib.rs:260-283 | The aggregate at a risk is the greatest degree to which any vote backs it, the lesser of its activation and the degree of its set there, and 0 if none does. |
| `Risk.CrispInUnit` | backend/crates/thalos-intelligence/src/lib.rs:260-285 | For all contributions the crisp risk is in [0, 1]. |
| `Risk.LoneSignal` | backend/crates/thalos-intelligence/src/kb.rs:481-521 | Votes for one set only, at any degrees in (0, 1], give that set's own verdict; medium and high come out at exactly 0.375 and 0.625. |
| `Risk.AddingCritical` | backend/crates/thalos-intelligence/src/lib.rs:260-285 | Adding a critical vote of any activation never lowers the risk. |
| `Risk.RaisingCritical` | backend/crates/thalos-intelligence/src/lib.rs:260-285 | Raising the activation of a critical vote never lowers the risk. |
| `Risk.FullCriticalVote` | backend/crates/thalos-intelligence/src/lib.rs:260-285 | A full critical vote with none for low comes out above 0.5, whatever the votes for medium and high. |
| `Risk.NoCriticalVote` | backend/crates/thalos-intelligence/src/lib.rs:260-285 | Without a critical vote the verdict is never critical. |
| `Risk.NoLowVote` | backend/crates/thalos-intelligence/src/lib.rs:260-285 | With a positive vote and none for low the verdict is never low. |
| `KnowledgeBase.Validate` | backend/crates/thalos-intelligence/src/kb.rs:361-375 | Accepts exactly the rule bases of 10 to 15 rules with unique ids and priorities 1 to 10; otherwise the error names the first rule at fault, a repeated id before a wrong priority. |
| `Engine.Run` | backend/crates/thalos-intelligence/src/engine.rs:38-111 | The passes over the priority agenda until one fires nothing or the cap is reached compute the specification's memory: facts, evidence, trace with the bindings of every fired rule, votes, fired set. |
| `Engine.BoundIs` | backend/crates/thalos-intelligence/src/engine.rs:61-75 | The bindings of a fired rule give each metric antecedent its degree and each fact its truth, and name nothing else. |
| `EngineProofs.TraceAccounts` | backend/crates/thalos-intelligence/src/engine.rs:38-111 | For any rule base and cap, the trace accounts for the run: each entry shows a rule whose antecedents all hold on the entry's bindings, each fact bound to true was derived by an earlier entry, and each fact true at the end by some entry. |
| `EngineProofs.RunIsEvidenced` | backend/crates/thalos-intelligence/src/engine.rs:83-85 | For any rule base with unique ids, the evidence of a run is what its fired rules mark: each amount is one of theirs and none of their keys is missing. |
| `Engine.EvaluateRule` | backend/crates/thalos-intelligence/src/engine.rs:119-143 | The loop with early return yields an activation exactly when every antecedent matches: at most 1 and at most the degree of any metric antecedent, and equal to 1 or to one of those degrees. |
| `Engine.ActivationIsLeast` | backend/crates/thalos-intelligence/src/engine.rs:119-143 | The activation of any antecedents is the greatest number that is no more than 1 and than the degree of any metric among them. |
| `Engine.AgendaIsStable` | backend/crates/thalos-intelligence/src/engine.rs:45-47 | The agenda is the rules by falling priority, those of one priority as declared. |
| `EngineProofs.RunReachesQuiescence` | backend/crates/thalos-intelligence/src/engine.rs:49-103 | For any rule base: given as many passes as rules, a run ends with no rule able to fire, having fired each at most once, the trace listing exactly the fired rules. |
| `EngineProofs.FiredIsLeastClosure` | backend/crates/thalos-intelligence/src/engine.rs:38-143 | With unique ids, and where no rule asks or derives as false what some rule derives as true, the fired set is closed under the rules, inside every closed set, and supported by the facts it derives; facts and votes are exactly those of the fired rules. |
| `EngineProofs.Confluence` | backend/crates/thalos-intelligence/src/engine.rs:38-143 | Rule bases with the same rules of that kind, in any order and with any priorities, fire the same set, derive the same facts, cast the same multiset of votes and give the same crisp risk; negated antecedents on facts that no rule grants are allowed. |
| `EngineProofs.NegationDependsOnOrder` | backend/crates/thalos-intelligence/src/engine.rs:134-139 | Where an antecedent denies what another rule grants it fails: the same two rules in the other order conclude less, whatever the cap. |
| `EngineProofs.DenialDependsOnOrder` | backend/crates/thalos-intelligence/src/engine.rs:78-82 | It fails too where two rules derive one fact as true and as false: the later of the two decides it. |
| `Assessor.DefaultIsMonotone` | backend/crates/thalos-intelligence/src/kb.rs:180-356 | The default rule base meets the hypotheses of confluence, within the cap of 50 passes. |
| `Assessor.Assess` | backend/crates/thalos-intelligence/src/lib.rs:68-127 | Risk, quality as the complement (the clamp never acts) and the bands of quality that are each verdict, trace, evidence and triggered rules of a report; every traced rule is found, with its category and priority. |
| `Assessor.InputsRead` | backend/crates/thalos-intelligence/src/lib.rs:161-220 | The manipulability is the average, or else the least, or else 0; the clearance is the least distance to an obstacle, or else 1; the singularity is 0.5 for a true event, 0.15 for a near one only, 0 for none. |
| `Assessor.DensityInvariance` | backend/crates/thalos-intelligence/src/lib.rs:153-220 | However densely a plan is sampled (every event observed any number of times, every count scaled), the inputs, the rules fired and the verdict are the same. |
| `Assessor.WorstEventDecides` | backend/crates/thalos-intelligence/src/lib.rs:161-220 | Reports with the same metrics of reach and clearance have the same inputs if and only if their worst event is the same, whether it comes as an observation or, in a report without any, as a count. |
| `Assessor.SeverityFromObservations` | backend/crates/thalos-intelligence/src/lib.rs:203-220 | The counting loop decides whether any singularity, or else near-singularity, event occurs. |
| `Assessor.DegreeIs` | backend/crates/thalos-intelligence/src/lib.rs:223-249 | After fuzzification each set of a variable has exactly its shape's degree at that variable's input, absent standing for 0. |
| `Verdicts.FiringTable` | backend/crates/thalos-intelligence/src/kb.rs:180-356 | For every report, each default rule fires if and only if an explicit condition on clearance, manipulability and singularity holds. |
| `Verdicts.VotesAreWarranted` | backend/crates/thalos-intelligence/src/kb.rs:180-356 | Every vote has a degree in (0, 1] and a condition on the inputs behind it. |
| `Verdicts.VoteTable` | backend/crates/thalos-intelligence/src/kb.rs:180-356 | For every report, the votes cast are exactly those of the rules that fire, each with the degree of its set, or the lesser degree of its two sets, at the inputs. |
| `Verdicts.EvidenceHoldsInputs` | backend/crates/thalos-intelligence/src/lib.rs:85-96 | The evidence holds the three inputs under their names. |
| `Verdicts.EvidenceTable` | backend/crates/thalos-intelligence/src/lib.rs:85-96 | And the finding of a default rule, with the amount 1, exactly when the rule fires. |
| `Verdicts.CollisionIsHighOrCritical` | backend/crates/thalos-intelligence/src/lib.rs:68-127 | A report whose min_collision_distance is 0 or less is always High or Critical, with a crisp risk over 0.5. |
| `Verdicts.NearObstacleIsNeverLow` | backend/crates/thalos-intelligence/src/lib.rs:68-127 | A report whose min_collision_distance is under 0.05 is never Low. |
| `Verdicts.CriticalNeedsCause` | backend/crates/thalos-intelligence/src/lib.rs:68-127 | Critical implies a min_collision_distance under 0.01, or a true singularity event together with a manipulability under 0.3: of the average, else of the least, else of neither given. |
| `Verdicts.CleanPlanIsLow` | backend/crates/thalos-intelligence/src/lib.rs:68-127 | A report without a min_collision_distance of 0.05 or less, with a manipulability over 0.5 by the average or else by the least, and without singularity events, is always Low. |
| `RobotGraphs.FromRobot` | backend/crates/thalos-models/src/graph.rs:100-182 | The queue loop over sorted child lists returns a graph that is a function of the robot alone: the same for every order in which the joint map is walked. |
| `RobotGraphs.OrderIsUnique` | backend/crates/thalos-models/src/graph.rs:121-123 | Entries in strict name order are determined by which entries there are. |
| `Names.LessIff` | backend/crates/thalos-models/src/graph.rs:121-123 | A name sorts before another exactly when it is a proper prefix of it or has the smaller character where they first differ. |
| `RobotGraphProofs.GraphIsTree` | backend/crates/thalos-models/src/graph.rs:100-182 | Links numbered once each from the root, indexes inverse to names, parent id < child id, parent joint of c = c - 1 and a real joint between the two, parents non-decreasing, siblings by joint name, children lists exactly the inverse of parents, no known child of a numbered link missing. |
| `RobotGraphProofs.NumbersTheReachable` | backend/crates/thalos-models/src/graph.rs:149-180 | Exactly the links that a walk of joints to known links reaches from the root are numbered. |
| `RobotGraphProofs.DepthIsDistance` | backend/crates/thalos-models/src/graph.rs:149-180 | The tree depth of every link is the length of the shortest such walk. |
| `PathSearch.Search.DfsPath` | backend/crates/thalos-models/src/graph.rs:274-309 | Found just when the way down exists and meets no visited link; then links, joints and visited grow by exactly that way; otherwise all three are restored. |
| `PathSearch.FindPath` | backend/crates/thalos-models/src/graph.rs:248-262 | A path just when the root is the target or an ancestor; its links are the reversed parent chain, its joints the parent joints of all but the first. |
| `PathSearch.PathByName` | backend/crates/thalos-models/src/graph.rs:265-269 | The same by names, on the graph of a robot. |
| `PathSearch.OnlyChain` | backend/crates/thalos-models/src/graph.rs:274-309 | There is only one way down between two links. |
| `ProgramEdits.RoundTripIff` | backend/crates/thalos-planning/src/program_edit.rs:96-278 | For every edit that applies, its inverse restores the program if and only if the capture is right (inserting and splitting need none; a replacement and an old target must be non-empty). |
| `ProgramEdits.UndoRestores` | backend/crates/thalos-planning/src/program_edit.rs:230-278 | Undoing any list of edits applied with right captures, last first, gives back the program. |
| `ProgramEdits.UncapturedInverseFails` | backend/crates/thalos-planning/src/program_edit.rs:225-278 | Uncaptured remove, merge and retarget inverses fail on every program. |
| `ProgramEdits.EmptyReplacementIsLost` | backend/crates/thalos-planning/src/program_edit.rs:98-121 | A captured replacement by nothing is not undone: its inverse succeeds with another program. |
| `ProgramEdits.RedoIff` | backend/crates/thalos-planning/src/program_edit.rs:230-278 | The inverse of the inverse repeats the edit if and only if it is neither a split nor a merge. |
| `ProgramEdits.EditEffect` | backend/crates/thalos-planning/src/program_edit.rs:96-221 | For every edit that applies: all segments outside its range stay as they are and in order, and the range holds the replacement, the insertion, nothing, the two halves through the point, the merged move within the first's limits, or the move with its target alone changed. |
| `ProgramEdits.AppliesIff` | backend/crates/thalos-planning/src/program_edit.rs:96-221 | Exactly when each edit applies: its range lies in the program, what is inserted, removed, split at or moved to is not empty, and the segments are of the kind the edit is for. |
| `ProgramEdits.FailureExplains` | backend/crates/thalos-planning/src/program_edit.rs:96-221 | Otherwise the error names the index out of bounds, the invalid range or the segment of the wrong kind. |
| `BoxSat.CollectAxes` | backend/crates/thalos-collision/src/intersect.rs:88-105 | The nested loops collect the six face axes and the cross products longer than the threshold, in order. |
| `BoxSat.BoxVsBox` | backend/crates/thalos-collision/src/intersect.rs:43-60 | The loop with early return is true just when no test axis shows a gap beyond the tolerance. |
| `BoxSat.ApartIff` | backend/crates/thalos-collision/src/intersect.rs:43-105 | The test finds the boxes apart exactly when one of the six face axes, or a cross product of two of them whose squared length exceeds 1e-12, shows a gap beyond 1e-9. |
| `BoxSat.RadiusIsReached` | backend/crates/thalos-collision/src/intersect.rs:71-78 | The radius of a box along an axis is reached: some point of it casts its shadow that far from the centre's. |
| `BoxSat.BoxBoxSeparation` | backend/crates/thalos-collision/src/distance.rs:99-130 | The loop returns the gap on the first axis that shows one, or else minus the least overlap; it exceeds 1e-9 if and only if the yes-or-no test is false, and for boxes with unit axes it never exceeds the distance between any two of their points. |
| `BoxSat.SharedPointIsSeen` | backend/crates/thalos-collision/src/intersect.rs:43-105 | Boxes that share a point are never reported apart: their shadows overlap on every axis. |
| `BoxSat.GapIsBelowDistance` | backend/crates/thalos-collision/src/distance.rs:99-130 | For unit axes, a gap on any of the test axes, cross products included, is at most the distance between any two points of the boxes. |
| `BoxDistance.SeparationIsDistanceIff` | backend/crates/thalos-collision/src/distance.rs:95-130 | For boxes apart with unit axes, what is returned is the distance between them if and only if the first axis to show a gap is a unit long and the second box, moved back along it by the gap, touches the first. |
| `BoxDistance.AlignedSeparationIff` | backend/crates/thalos-collision/src/distance.rs:95-130 | For boxes of one orientation the first such axis is a face axis, and what is returned is the distance if and only if the extents are not negative and no other face axis shows a gap. |
| `BoxDistance.GapIsNotDistance` | backend/crates/thalos-collision/src/distance.rs:95-130 | Two cubes of one orientation for which 1 is returned, is not the distance, and no two points are nearer than the square root of 5. |
| `BoxDistance.SharesIff` | backend/crates/thalos-collision/src/intersect.rs:43-105 | For boxes of one orientation the test is complete: they share a point if and only if the extents are not negative and no face axis shows a gap. |
| `BoxDistance.AlignedDepth` | backend/crates/thalos-collision/src/distance.rs:95-130 | For boxes of one orientation that overlap, minus what is returned is their depth: every shorter translation leaves a shared point, and some translation of any greater length leaves none. |
| `BoxDistance.ShorterMovesOverlap` | backend/crates/thalos-collision/src/distance.rs:95-130 | For overlapping boxes with any unit axes, no translation shorter than minus what is returned makes the test find them apart. |
| `BoxSat.OverlappingIsSymmetric` | backend/crates/thalos-collision/src/intersect.rs:43-105 | The verdict does not depend on which box comes first. |
| `SceneValidator.ValidateTopology` | backend/crates/thalos-visual/src/validator.rs:59-64 | The five topology checks pass if and only if ids are unique, the world exists without a parent, and every frame has a simple chain of parents ending at the world; otherwise the error is that of the first check that fails and names an id at fault. |
| `SceneValidator.ChecksDecide` | backend/crates/thalos-visual/src/validator.rs:72-152 | The five conditions together are the same as that. |
| `SceneValidator.WalkUp` | backend/crates/thalos-visual/src/validator.rs:107-117 | The walk over parents terminates and tells whether the chain ends. |
| `SceneValidator.RepeatNeverEnds` | backend/crates/thalos-visual/src/validator.rs:111-115 | A chain of parents that meets an id again never ends. |
| `SceneValidator.MarkReachable` | backend/crates/thalos-visual/src/validator.rs:130-142 | The worklist terminates and marks exactly the ids reached from the world. |
| `SceneValidator.CheckNoCycles` | backend/crates/thalos-visual/src/validator.rs:103-120 | Passes just when every frame's chain of parents ends; otherwise names a frame whose chain does not. |
| `SceneValidator.CheckConnectivity` | backend/crates/thalos-visual/src/validator.rs:122-152 | Passes just when every frame is reached; otherwise names one that is not. |
| `SceneValidator.CheckIdsUnique` | backend/crates/thalos-visual/src/validator.rs:79-89 | Passes just when no id repeats; otherwise names one that does. |
| `SceneValidator.CheckParentsExist` | backend/crates/thalos-visual/src/validator.rs:91-101 | Passes just when every parent is a frame; otherwise names a parent that is not. |
| `SemanticExpert.Analyze` | backend/crates/thalos-intelligence/src/semantic.rs:130-265 | The one-pass scan returns the specified observations in order. |
| `SemanticExpert.AdviceIff` | backend/crates/thalos-intelligence/src/semantic.rs:130-265 | An observation is made if and only if it is due on the program: S01 no later place, S02/S03 the last unplaced pick, S04/S08 the last two moves with no pick or place since, S05 the previous operation places the same object, S06, S07. |
| `SemanticExpert.AdviceInOrder` | backend/crates/thalos-intelligence/src/semantic.rs:130-265 | The advice comes in the order of the program: for every k what is due before operation k makes a prefix of it, and only then come the picks never placed and the missing home. |
| `SemanticExpert.ScanStep` | backend/crates/thalos-intelligence/src/semantic.rs:135-240 | Each operation keeps what the scan's variables mean. |
| `SemanticExpert.LastHeldIs` | backend/crates/thalos-intelligence/src/semantic.rs:161-176 | The object reported as held is that of the last pick not yet placed. |

## Left out

- IEEE rounding, NaN and infinities: reals stand for floats, and the `is_nan` branch of `Risk::from_crisp` and `check_finite` have no counterpart.
- RAW_PULSE, which bypasses the envelope for calibration, and the injection of its driver.
- Serial and TCP transport, tokenizing and number syntax (commands arrive as numbers or marked malformed; those beyond a 32-bit word saturate as `strtol` and `strtoul` do, where C leaves `sscanf` undefined; the host of the simulator has 64-bit words), response text, I2C registers and the mode and prescale set-up of the PCA9685.
- The Error and Silence scenarios of the simulator, its threads and its command line.
- The payloads of recorded samples and of STATUS in the refinement: the two devices differ there by design.
- Refinement.FirmwareAnswers: in-range, in-envelope commands only; `EnvelopeTellsApart`, `DurationTellsApart`, `VersionTellsApart` and `CountTellsApart` show why.
- ExecutorTracking.TrackingError: assumes an unwrapped clock, a ready driver and no hour between writes; the bound counts the lateness of one pass.
- ExecutorTrace.TraceIsExact: speaks of the executor alone, with no SAMPLES between load and done; `FetchReturnsPlanIff` has the commands.
- ExecutorPasses.SpeedAcrossPassesIff: where an earlier write of the pass was later than the last, the condition on the plan is not exact; `BoundaryJump` bounds what the arm then does.
- Executors.Executor.StartExecution: takes its two clock readings as parameters; the recorded count that nothing reads is not kept.
- Simulator.SimState.Handle: counters and sums are unbounded where the code uses `usize` and `u64`.
- Simulator.ServeConnection: a read or write error, which ends the connection early, is not modelled.
- Assessor.Assess: recommendations and the lookup of display strings are not modelled.
- Engine.Run: bindings keep the degree itself where the code keeps its text, rounded to three decimals.
- EngineProofs.Confluence: evidence values are not part of it, since two rules may mark one key with different amounts and the later wins.
- RobotGraphs.FromRobot: numbers are unbounded where the code casts to `u32`, and a joint is kept under its own name, as `add_joint` does.
- PathSearch.Search.DfsPath: on graphs built from a robot; no other constructor exists.
- ProgramEdits.RoundTripIff: indices are unbounded except in the checked additions, so `first + 1` on the largest index, which overflows in the code, is the plain sum; the restored program must fit in memory.
- BoxSat.BoxVsBox: the axes of a box are given; the quaternion that produces them, spheres and cylinders are outside; the completeness of the 15 axes is proved for boxes of one orientation only.
- BoxDistance.SeparationIsDistanceIff: for boxes of two orientations the condition is a shared point and not a closed form.
- BoxDistance.AlignedDepth: for boxes of two orientations the depth is bounded through the test only (`ShorterMovesOverlap`).
- SceneValidator.ValidateTopology: ends after the five topology checks; finiteness, quaternion norms, links and twists are single-branch checks.
- SemanticExpert.Analyze: severities and the artifact anchor are constants per kind and are not kept.
- Forward and inverse kinematics, planning, lowering, the HTTP API, stores and the user interface.
