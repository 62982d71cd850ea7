# Eye-state detectors and their Arduino command protocol, in Dafny

This project models the decision logic of a family of Python programs. Each one watches a driver through a webcam and tells an Arduino, one ASCII byte at a time, whether the driver's eyes are open.

The vision collaborators (Haar cascades, the dlib landmark predictor) are not modelled. They become per-frame inputs:
- an `Observation` (face present, number of eyes found);
- or, for the landmark detector, the averaged eye aspect ratio (EAR) of each face, as a `real`.

What is modelled is everything the programs decide on those inputs:

- **Debounce counters** (`Debounce`): `eye_closed_counter` and `no_face_counter`, shared by the four cascade-based detectors. `Replay` folds them over a history of frames, and `ReplayCountsStreaks` proves what they mean: each counter is the length of the current streak of its kind of frame.
- **Frame loop** (`FrameLoop`): the `while True` camera loop. It ends when the frames run out, or after the frame on which 'q' was pressed.
- **Serial link** (`SerialLink.Link`): `self.arduino`, which may be absent, open or closed. It keeps the log of bytes handed to `write`.
- **Edge-triggered car controller** (`Car`, eye_controlled_car.py): a tri-state verdict per frame. '1' or '0' is sent only when the verdict flips the car's state.
- **Car controller with voice alerts** (`VoiceCar`, eye_controlled_car_with_voice.py): the same car logic, plus wake-up messages throttled to one per three seconds.
- **Level-triggered detectors**, which send a byte on every frame or face:
  - `Sleepiness`: sleepiness_detection.py, EAR-based;
  - `SimpleSleepiness`: simple_sleepiness_detection.py, cascade-based;
  - `SleepinessTest`: test_sleepiness_no_arduino.py, with tallies and a reset key.
- **Eye-count analyzer** (`EyeAnalysis`, test_eye_detection.py): a history bounded to 30 entries, the recent window, a three-way classification and end-of-run tallies.
- **Command test tool** (`EnhancedTest`, test_enhanced_system.py):
  - the automatic test's fixed command schedule and pauses;
  - the manual mode's command filter (strip, lower-case, then the membership test).
- **Setup script** (`ProjectSetup`, setup_project.py):
  - the version check;
  - the missing-package list;
  - Arduino port selection;
  - the connection-test guard;
  - the short-circuiting success chain of `main`.
- **String helpers** (`Text`): Python's `str.strip()`, `str.lower()` and substring `in`, as the tools above use them.

Each program's detector class is a Dafny `class` whose fields are the Python object's fields. Its methods update those fields and the link's byte log. Each method is proved against a specification function of the old state and the inputs: `Detect`, `Decide`, `React`/`Next`/`Play`, `FaceStep`/`Scan`, `Assess`/`Signals`, `FrameStep`/`Session`, `FrameStep`/`Analyze`. The properties the programs promise are lemmas about those functions.

## Model

| member | source | states |
|---|---|---|
| Debounce.TrailingClosed | eye_controlled_car.py:98-107 | the length of the streak of face-with-fewer-than-two-eyes frames that ends the history: all of it qualifies, and the frame before it does not |
| Debounce.TrailingNoFace | eye_controlled_car.py:73-79 | the length of the streak of faceless frames that ends the history, with the same two guarantees |
| Debounce.ReplayCountsStreaks | eye_controlled_car.py:73-107 | after any history, `eye_closed_counter` and `no_face_counter` each equal the trailing streak of their kind of frame; a streak covering the whole history continues the starting value |
| Debounce.CountersFromStart | eye_controlled_car.py:22-23 | from zero counters, the counters are exactly the two trailing streaks |
| Debounce.AtMostOneCounterLive | eye_controlled_car.py:73-79 | after at least one frame, at least one of the two counters is zero |
| Debounce.ClosedBeyondFromHistory | eye_controlled_car.py:98-101 | from the start, the "more than threshold" trigger fires on a frame exactly when that frame shows a face with missing eyes and ends a streak of such frames longer than the threshold |
| Debounce.ReplaySnoc | eye_controlled_car.py:110-121 | replaying one more frame is one more counter update |
| FrameLoop.FramesRead | eye_controlled_car.py:112-172 | the loop handles every frame, or stops right after the first frame on which 'q' was pressed; no earlier frame had 'q' |
| FrameLoop.FramesReadStep | eye_controlled_car.py:171-172 | frame i is the last one read exactly when 'q' was pressed after it |
| FrameLoop.Observations | eye_controlled_car.py:113-121 | the per-frame observations, in order, one per frame |
| FrameLoop.FramesSince | test_sleepiness_no_arduino.py:137-141 | the frames after the last press of a key ('r' there, 'c' at test_eye_detection.py:152-154), none of which has that key, the frame before them having it |
| SerialLink.Link.constructor | eye_controlled_car.py:34 | the link starts absent, closed and with nothing written |
| SerialLink.Link.Connect | eye_controlled_car.py:48-57 | if the port opens, the link is present and open and the greeting byte is written once; otherwise it is absent and nothing is written |
| SerialLink.Link.Send | eye_controlled_car.py:59-65 | exactly one byte is written when the port is present and open, and nothing otherwise; the connection state never changes |
| SerialLink.Link.Shutdown | eye_controlled_car.py:183-187 | if a port exists, the final byte goes out (when it is open) and the port is closed; an absent link stays untouched |
| Car.VerdictFromHistory | eye_controlled_car.py:67-108 | from the start, the verdict is Closed for no face, Open for two or more eyes, and for missing eyes Closed only once the streak is longer than 15, Checking before that |
| Car.ClosedStreakVerdicts | eye_controlled_car.py:98-104 | along a streak of missing-eyes frames the counter grows by one per frame, and frame i is Checking until the counter passes 15, then Closed |
| Car.OpenEyesReset | eye_controlled_car.py:105-108 | a frame with two or more eyes clears the counter and yields Open, whatever came before |
| Car.CommandsAlternate | eye_controlled_car.py:124-141 | the commands sent are only '0'/'1' and never repeat; the first one changes the starting car state; the last one is the final car state; with no command the car state is unchanged |
| Car.SteadyVerdictSendsAtMostOnce | eye_controlled_car.py:124-141 | a run of one verdict, of any length, sends at most one byte; Open or Closed leaves the car running or stopped accordingly; Checking sends nothing and changes nothing |
| Car.SessionStreamAlternates | eye_controlled_car.py:53 | the whole stream of a connected session, greeting '0' included, never repeats a command |
| Car.SixteenClosedFramesStopOnce | eye_controlled_car.py:98-141 | from zero counters, a running car receives nothing for the first 15 missing-eyes frames and exactly one '0' on the 16th, which stops it |
| Car.EyeControlledCar.constructor | eye_controlled_car.py:17-57 | zero counters and frame count, car stopped, and '0' written once exactly when the port opens |
| Car.EyeControlledCar.DetectEyeState | eye_controlled_car.py:67-108 | the counters move by the shared update and the returned verdict, status and eye count are `Detect`'s |
| Car.EyeControlledCar.ControlCar | eye_controlled_car.py:124-141 | `car_running` and the bytes written follow `Decide`: '1' only on Open while stopped, '0' only on Closed while running |
| Car.EyeControlledCar.HandleFrame | eye_controlled_car.py:113-141 | one iteration: the frame is counted, the counters updated and the car driven by the frame's verdict |
| Car.EyeControlledCar.HandleFrames | eye_controlled_car.py:112-172 | after the loop, the frame count, counters, car state and bytes are those of replaying exactly the frames read |
| Car.EyeControlledCar.Cleanup | eye_controlled_car.py:179-186 | a final '0' when the port is live, then the port is closed |
| Car.EyeControlledCar.Run | eye_controlled_car.py:110-177 | the loop followed by cleanup: the replayed commands, then '0', and the port is left closed |
| VoiceCar.React | eye_controlled_car_with_voice.py:202-239 | the car decision is the plain controller's; at most one message; "car running" exactly when Open starts the car; a wake-up exactly on Closed when no alert is active or the last one is more than 3 s old; Checking changes nothing |
| VoiceCar.PlayDrivesLikeCar | eye_controlled_car_with_voice.py:141-221 | whatever the alerts and timing, the voice controller's counters, car state and command bytes equal the plain controller's |
| VoiceCar.NextKeepsAlertsSpaced | eye_controlled_car_with_voice.py:217-239 | one frame keeps consecutive wake-up messages more than 3 s apart and keeps `voice_active`/`last_voice_time` in step with the speech log |
| VoiceCar.AlertsSpaced | eye_controlled_car_with_voice.py:224-226 | over any run of frames, consecutive wake-up messages are more than 3 s apart and the alert state matches the log |
| VoiceCar.SessionAlertsSpaced | eye_controlled_car_with_voice.py:72 | from the start of a session, after the start-up message, wake-up messages are spaced by more than 3 s |
| VoiceCar.EyeControlledCarWithVoice.constructor | eye_controlled_car_with_voice.py:36-72 | zero counters, car stopped, no alert, '0' written once when the port opens, and the start-up message when an engine exists |
| VoiceCar.EyeControlledCarWithVoice.Say | eye_controlled_car_with_voice.py:100-109 | the text is spoken only when an engine exists, and nothing else changes |
| VoiceCar.EyeControlledCarWithVoice.DetectEyeState | eye_controlled_car_with_voice.py:141-182 | the same counter update and verdict as the plain controller; the alert state and speech log are unchanged |
| VoiceCar.EyeControlledCarWithVoice.HandleFrame | eye_controlled_car_with_voice.py:190-239 | one iteration moves the state, bytes and speech as `Next` does, passing `last_voice_time` in and out |
| VoiceCar.EyeControlledCarWithVoice.HandleFrames | eye_controlled_car_with_voice.py:184-273 | after the loop, starting from `last_voice_time = 0`, the state, bytes and speech are those of playing the frames read |
| VoiceCar.EyeControlledCarWithVoice.Cleanup | eye_controlled_car_with_voice.py:280-296 | a final '0' when the port is live, the port closed, then the shutdown message |
| VoiceCar.EyeControlledCarWithVoice.Run | eye_controlled_car_with_voice.py:184-278 | the loop followed by cleanup: the played bytes then '0', the played speech then the shutdown message |
| Sleepiness.FaceStepSignals | sleepiness_detection.py:132-148 | one face sends at most one byte: '1' exactly when EAR >= 0.21, and '0' exactly when EAR < 0.21 and the bumped counter is at least 20; `sleepy_counter` goes up exactly with a '0' |
| Sleepiness.TrailingClosed | sleepiness_detection.py:132-146 | the length of the streak of closed-eye faces ending the sequence |
| Sleepiness.ScanAppend | sleepiness_detection.py:112-148 | faces are handled one after another whatever frame they come from: scanning two stretches in a row is scanning them joined |
| Sleepiness.ScanNextFrame | sleepiness_detection.py:112-148 | handling one more frame scans its faces from where the earlier frames left off |
| Sleepiness.NoFaceFrameIsIdle | sleepiness_detection.py:112 | a frame without faces changes neither counter and sends nothing |
| Sleepiness.ScanCounts | sleepiness_detection.py:132-148 | `frame_counter` is the trailing streak of closed faces, and `sleepy_counter` grew by exactly the number of '0's sent |
| Sleepiness.SleepyCounterGrows | sleepiness_detection.py:136 | `sleepy_counter` never decreases |
| Sleepiness.SignalsAreBits | sleepiness_detection.py:138-148 | every byte sent is '0' or '1' |
| Sleepiness.OnesMatchOpenFaces | sleepiness_detection.py:145-148 | the number of '1's sent equals the number of faces with EAR >= 0.21 |
| Sleepiness.TwentiethClosedFaceAlerts | sleepiness_detection.py:133-138 | from fresh counters, 19 closed faces send nothing; the 20th sends the first '0' and counts the first alert |
| Sleepiness.QuietBelowAlert | sleepiness_detection.py:133-135 | fewer than 20 closed faces from fresh counters send nothing, count no alert and leave the streak in `frame_counter` |
| Sleepiness.SleepinessDetector.constructor | sleepiness_detection.py:11-37 | zero counters and '1' written once exactly when the port opens |
| Sleepiness.SleepinessDetector.HandleFace | sleepiness_detection.py:132-148 | the counters and byte of one face are `FaceStep`'s |
| Sleepiness.SleepinessDetector.ProcessFrame | sleepiness_detection.py:107-160 | every face of the frame, in order: the state and bytes are those of scanning them |
| Sleepiness.SleepinessDetector.HandleFrames | sleepiness_detection.py:162-182 | after the loop, the state and bytes are those of scanning all faces of the frames read |
| Sleepiness.SleepinessDetector.Cleanup | sleepiness_detection.py:189-197 | a final '1' when the port is live, then the port is closed |
| Sleepiness.SleepinessDetector.Run | sleepiness_detection.py:162-187 | the loop followed by cleanup: the scanned bytes, then '1', and the port is left closed |
| SimpleSleepiness.Assess | simple_sleepiness_detection.py:62-106 | sleepy exactly when a face with fewer than two eyes pushes the counter above 20; the status is "No face detected" only beyond 30 faceless frames and "Searching" before; "Eyes open" for two or more eyes; alert or "possibly closed" with the counter for missing eyes |
| SimpleSleepiness.SignalAt | simple_sleepiness_detection.py:108-123 | frame i sends '0' exactly when the trigger fires on it, given the counters the frames before it left, and '1' otherwise, so faceless frames send '1' |
| SimpleSleepiness.SignalsFromStart | simple_sleepiness_detection.py:97-123 | from the start, a frame sends '0' exactly when it shows a face with missing eyes that ends a streak of more than 20 such frames |
| SimpleSleepiness.NoFaceStatusFromStart | simple_sleepiness_detection.py:68-75 | from the start, a faceless frame reads "No face detected" exactly when it ends a streak of more than 30 faceless frames |
| SimpleSleepiness.SimpleSleepinessDetector.constructor | simple_sleepiness_detection.py:16-32 | zero counters and '1' written once exactly when the port opens |
| SimpleSleepiness.SimpleSleepinessDetector.DetectSleepiness | simple_sleepiness_detection.py:62-106 | the counters move by the shared update, the result is `Assess`'s, and `face_absent_counter` never changes |
| SimpleSleepiness.SimpleSleepinessDetector.HandleFrame | simple_sleepiness_detection.py:116-123 | one frame sends exactly one byte when the port is live: '0' when sleepy, '1' otherwise |
| SimpleSleepiness.SimpleSleepinessDetector.HandleFrames | simple_sleepiness_detection.py:108-131 | after the loop, the counters are the replay of the frames read and the bytes are their signals, one per frame |
| SimpleSleepiness.SimpleSleepinessDetector.Cleanup | simple_sleepiness_detection.py:138-142 | a final '1' when the port is live, then the port is closed |
| SimpleSleepiness.SimpleSleepinessDetector.Run | simple_sleepiness_detection.py:108-136 | the loop followed by cleanup: one signal per frame read, then '1' |
| SleepinessTest.Inspect | test_sleepiness_no_arduino.py:40-81 | sleepy exactly when a face with fewer than two eyes pushes the counter above 20; the eye count is 0 without a face; the status is "no face" exactly when no face is found |
| SleepinessTest.FrameStep | test_sleepiness_no_arduino.py:86-142 | `no_face_counter` always follows the shared rule; 'r' zeroes the closed counter, `total_frames` and `alert_count`; otherwise `total_frames` grows by one and `alert_count` by one exactly on a sleepy frame |
| SleepinessTest.NoResetTally | test_sleepiness_no_arduino.py:74-91 | without 'r', the counters follow the shared rule, `total_frames` counts the frames and `alert_count` the sleepy ones |
| SleepinessTest.TotalSinceReset | test_sleepiness_no_arduino.py:91-141 | `total_frames` counts the frames since the last reset, and resets never touch `no_face_counter` |
| SleepinessTest.SleepinessTestDetector.constructor | test_sleepiness_no_arduino.py:12-20 | all four counters start at zero |
| SleepinessTest.SleepinessTestDetector.DetectSleepiness | test_sleepiness_no_arduino.py:40-81 | the counters move by the shared update, the report is `Inspect`'s, and `alert_count` grows exactly on a sleepy report |
| SleepinessTest.SleepinessTestDetector.HandleFrame | test_sleepiness_no_arduino.py:86-142 | one iteration moves the state as `FrameStep` does |
| SleepinessTest.SleepinessTestDetector.Run | test_sleepiness_no_arduino.py:83-147 | the state after the loop is the session of exactly the frames read |
| EyeAnalysis.EyeCount | test_eye_detection.py:38-84 | the eye count is 0 without a face, and the cascade's count otherwise |
| EyeAnalysis.Classify | test_eye_detection.py:73-82 | "EYES OPEN" exactly for two or more eyes, "ONE EYE" exactly for one, "EYES CLOSED" exactly for none |
| EyeAnalysis.Record | test_eye_detection.py:100-102 | after an append, a history of at most 30 stays at most 30 and ends with the newest count |
| EyeAnalysis.RecordKeepsWindow | test_eye_detection.py:100-102 | the bounded history is always the last min(n, 30) counts, in arrival order |
| EyeAnalysis.Recent | test_eye_detection.py:106 | the last 10 entries when there are at least 10, otherwise the whole history |
| EyeAnalysis.RecentOfWindow | test_eye_detection.py:106 | the recent window of the bounded history is the last min(n, 10) counts of the session |
| EyeAnalysis.HistoryIsWindow | test_eye_detection.py:97-154 | the analyzer's history is the window of the last 30 eye counts since the last 'c' (after the starting history if there was none) |
| EyeAnalysis.FrameCountSinceClear | test_eye_detection.py:93-154 | `frame_count` is the number of frames since the last 'c' (continuing the start if none) |
| EyeAnalysis.FreshHistoryIsWindow | test_eye_detection.py:93-102 | from a fresh analyzer and without 'c', the history is the last 30 counts and `frame_count` the number of frames |
| EyeAnalysis.OpenClosedPartition | test_eye_detection.py:210-211 | every history entry is counted once, as open or as closed |
| EyeAnalysis.GraphColorIndexAsWritten | test_eye_detection.py:192 | `eye_history[-(30 - i)]` exists exactly when 30 - i <= len(history) |
| EyeAnalysis.GraphIndexFailsOnSecondFrame | test_eye_detection.py:129-192 | with two entries (the first frame that draws the graph), the first segment's index does not exist |
| EyeAnalysis.GraphIndexFailsBelowFull | test_eye_detection.py:183-192 | every history of 2 to 29 entries fails on the first segment |
| EyeAnalysis.GraphColorIndex | test_eye_detection.py:185-193 | segment i is coloured by window entry i, and the index agrees with the code as written once the history is full |
| EyeAnalysis.EyeDetectionAnalyzer.constructor | test_eye_detection.py:11-21 | empty history and zero frame count |
| EyeAnalysis.EyeDetectionAnalyzer.SegmentColors | test_eye_detection.py:183-193 | with the corrected index: one colour per segment of the plotted window, green exactly where the starting entry has two or more eyes |
| EyeAnalysis.EyeDetectionAnalyzer.HandleFrame | test_eye_detection.py:89-155 | with the corrected index: one iteration moves the state as `FrameStep` does and keeps the history at 30 entries or fewer |
| EyeAnalysis.EyeDetectionAnalyzer.Run | test_eye_detection.py:86-160 | with the corrected index: the state after the loop is the analysis of exactly the frames read, the history stays bounded, and the `cleanup` of the `finally` block reports the final history's totals (none when it is empty) |
| EyeAnalysis.EyeDetectionAnalyzer.Cleanup | test_eye_detection.py:199-215 | no totals for an empty history; otherwise the number of entries, the open ones and the closed ones |
| Text.TrimStart | test_enhanced_system.py:112 | a suffix of the input that is empty or starts with a non-space |
| Text.TrimEnd | test_enhanced_system.py:112 | a prefix of the input that is empty or ends with a non-space |
| Text.TrimStartDropsSpaces | test_enhanced_system.py:112 | everything dropped from the front is whitespace |
| Text.TrimEndDropsSpaces | test_enhanced_system.py:112 | everything dropped from the back is whitespace |
| Text.Strip | test_enhanced_system.py:112 | the result is no longer than the input and neither starts nor ends with whitespace |
| Text.StripClean | test_enhanced_system.py:112 | a string already free of surrounding whitespace is unchanged |
| Text.StripIdempotent | test_enhanced_system.py:112 | stripping twice equals stripping once |
| Text.StripAround | test_enhanced_system.py:112 | whitespace around a word is exactly what strip removes |
| Text.LowerChar | test_enhanced_system.py:112 | ASCII capitals become small letters and every other character is kept |
| Text.Lower | setup_project.py:186 | same length, each character lowered |
| Text.LowerIdempotent | test_enhanced_system.py:112 | no capital is left, so lowering twice equals lowering once |
| Text.ContainsOccurs | setup_project.py:186 | the substring test answers yes exactly when the pattern occurs at some index |
| EnhancedTest.Normalize | test_enhanced_system.py:112 | the normalized line is no longer than the input, has no surrounding whitespace and no capitals |
| EnhancedTest.Act | test_enhanced_system.py:112-127 | Quit exactly for "q"; forward exactly for the six commands, as that one character; reject otherwise |
| EnhancedTest.ActionsValid | test_enhanced_system.py:116-118 | only one of '1','0','b','v','a','t' is ever forwarded |
| EnhancedTest.SentValid | test_enhanced_system.py:116-118 | at most one byte per line, and every byte is one of the six commands |
| EnhancedTest.QuitEndsSession | test_enhanced_system.py:114-115 | nothing typed after "q" is sent |
| EnhancedTest.NormalizePaddedLetter | test_enhanced_system.py:112 | a single non-space character padded with whitespace normalizes to that character lowered |
| EnhancedTest.PaddedCommandForwarded | test_enhanced_system.py:112-118 | a command letter, in either case and padded with whitespace, is forwarded in lower case |
| EnhancedTest.PaddedQuit | test_enhanced_system.py:112-115 | "q" or "Q" padded with whitespace ends the session |
| EnhancedTest.WordRejected | test_enhanced_system.py:116-127 | a word of two or more characters is rejected, whatever whitespace surrounds it |
| EnhancedTest.ReadCommand | test_enhanced_system.py:112-127 | one typed line is acted on as `Act` says |
| EnhancedTest.ManualTest | test_enhanced_system.py:91-133 | with the port open, the bytes written are those of the lines before the first "q", one per valid command, each one of the six; nothing without a port |
| EnhancedTest.WaitSeconds | test_enhanced_system.py:60-69 | the pause after a step is one of 2, 3, 5, 8 or 0.5 seconds |
| EnhancedTest.NoWaitIn | test_enhanced_system.py:60-69 | a description that never spells "Wait" pauses 0.5 s |
| EnhancedTest.WaitAnnounced | test_enhanced_system.py:60-69 | a description opening with "Wait n seconds" (and no other 'W') matches only phrase n, and pauses 2, 3, 5 or 8 s for those digits, else 0.5 s |
| EnhancedTest.StepCommands | test_enhanced_system.py:48-50 | at most one byte per step |
| EnhancedTest.StepCommandsAppend | test_enhanced_system.py:48-50 | the bytes of two step lists run in turn are the first list's bytes followed by the second's |
| EnhancedTest.ScheduleCommands | test_enhanced_system.py:27-50 | any fifteen steps carrying the fixed test's commands send a, 1, 0, b, 0, v, 0, t, 1 |
| EnhancedTest.TestsCommandSequence | test_enhanced_system.py:27-50 | the fixed test writes exactly a, 1, 0, b, 0, v, 0, t, 1 |
| EnhancedTest.RunSteps | test_enhanced_system.py:45-71 | the bytes written are the steps' commands in order, and each step's pause is read off its description |
| EnhancedTest.TestEnhancedArduino | test_enhanced_system.py:13-75 | with the port open: a, 1, 0, b, 0, v, 0, t, 1, then the final '1', with one pause per step; nothing without a port |
| ProjectSetup.PythonVersionOk | setup_project.py:36-41 | accepted exactly for 3.7 or later |
| ProjectSetup.VersionCheckMonotone | setup_project.py:36 | any version at or above an accepted one is accepted |
| ProjectSetup.Missing | setup_project.py:56-80 | a package is listed exactly when it is required and its import fails |
| ProjectSetup.MissingInOrder | setup_project.py:58-80 | the missing packages keep the order of the required list |
| ProjectSetup.FindMissing | setup_project.py:56-80 | the import loop produces exactly `Missing` of the required list |
| ProjectSetup.CheckAndInstallPackages | setup_project.py:43-94 | pip runs exactly when something is missing, and the check passes when nothing is missing or pip succeeds |
| ProjectSetup.Matching | setup_project.py:183-190 | no device exactly when no port matches; a device is listed exactly when a matching port has it; the first entry is the first match's device |
| ProjectSetup.MatchingInOrder | setup_project.py:183-190 | matched devices keep the scan order |
| ProjectSetup.Devices | setup_project.py:182-185 | the scanned devices, one per port, in order |
| ProjectSetup.FindArduinoPorts | setup_project.py:175-204 | None when the scan fails or no port matches; otherwise the device of the first port whose lower-cased description mentions "arduino" or "uno" |
| ProjectSetup.TestSerialConnection | setup_project.py:206-238 | an absent or empty port fails at once without writing; otherwise one '1' is written exactly when the port opens, and the test succeeds exactly when, in addition, the reply (if any) decodes |
| ProjectSetup.RunChecks | setup_project.py:311-327 | success exactly when the version, packages, model and webcam checks all pass; each later check runs only while all earlier ones passed |
| ProjectSetup.RunSetup | setup_project.py:306-335 | the check chain as above, then the port scan and test-script creation always run; the connection test runs exactly when a port is found; the only byte written is the test's '1' |

## Left out

- The vision collaborators are left out. This covers the Haar cascades, the dlib face detector and landmark predictor, landmark extraction, and the EAR formula of `calculate_ear` (square roots on floating point). Each frame's result is an input.
- Rendering and the UI are left out: `putText`, rectangles, `imshow`, status colours and positions, and the graph geometry of `draw_eye_graph`. Only the graph's segment colouring is kept.
- The averages `avg_eyes` and `recent_avg` of test_eye_detection.py are left out because they are floating-point divisions. The model keeps the windows they average and the end-of-run tallies. The end-of-run percentages are left out for the same reason.
- Wall-clock time is a `real` input reading per frame. `time.sleep` pauses are not performed: the automatic test returns the pause lengths instead.
- Text-to-speech is left out: `setup_voice`, `pyttsx3`, engine failures and `play_alert_sound` (which does nothing). The engine is a flag, and speech is a log of requested messages.
- The random choice among the six wake-up texts is left out. A wake-up request is logged with its time, not its text.
- Opening the serial port, the webcam, `input()`, `subprocess`/pip, the model download and bz2 extraction, and port enumeration are not performed. Their outcomes are inputs (`portOpens`, `pipSucceeds`, `modelReady`, `webcamWorks`, `scan`, `opens`, `replyDecodes`). The same goes for the `test_webcam` result.
- Any exception raised by a detector's constructor or by a library call outside the modelled branches is left out, as is the `except Exception` in each `main`. `sys.exit()` on a closed webcam is left out too.
- `KeyboardInterrupt` is left out. It only ends the loop early, and `cleanup` still runs, as it does after the modelled loop.
- Exceptions raised by a write are left out. They are caught and printed, and the state does not change, so the byte log records every byte handed to `write`.
- Exceptions inside the automatic and manual command tests are left out: a write failing mid-sequence, or end of input in `manual_test`. The manual session ends at "q" or at the end of the typed lines.
- The pictograms that open the automatic test's descriptions are dropped from the modelled texts; they do not affect the "Wait N seconds" tests.
- `str.lower()` beyond ASCII is left out: only 'A'-'Z' are lowered.
- The responses read back from the Arduino are left out (they are only printed), as is everything printed. Only whether a reply decodes as text is kept, because a reply that does not decode makes `test_serial_connection` fail after its '1' was written.
- EyeAnalysis.EyeDetectionAnalyzer.SegmentColors/HandleFrame/Run: these use the corrected graph index of "## Findings". As written, a run stops with IndexError the first time the history reaches 2 entries.
- `create_test_script` is left out. Its file write is I/O with no decision in it; the model only records that the step runs.
- `main()`'s port prompt and the mode menu of test_enhanced_system.py are left out: they only choose inputs.
- test_webcam.py and test_face_detection.py are not part of this model: they are camera and display loops with no decisions.
- The concrete pause of each of the fifteen fixed steps is not evaluated one by one. `WaitSeconds`, `NoWaitIn` and `WaitAnnounced` state the rule that determines each pause.
- Where the code and the written design disagree, the model follows the code:
  - A failed write leaves the link as it is. There is no demotion and no reconnection (eye_controlled_car.py:64-65).
  - In the voice controller, every Closed frame with no active alert, or more than 3 s after the last one, requests a new wake-up message, so alerts repeat while the eyes stay closed.
  - The EAR detector does nothing on a frame without faces: no counter moves and no byte is sent.

## Findings

| source | as written | input that shows it | evidently intended | confidence | as-written member | corrected member |
|---|---|---|---|---|---|---|
| test_eye_detection.py:192 | segment i of the eye graph is coloured by `eye_history[-(30-i)]`, which reaches 30 entries back whatever the history's length | the second frame: the graph is drawn once the history has 2 entries, and `eye_history[-30]` raises IndexError (any length from 2 to 29 fails the same way) | segment i is coloured by entry i of the plotted window `eye_history[-30:]` | not executed | EyeAnalysis.GraphColorIndexAsWritten, EyeAnalysis.GraphIndexFailsOnSecondFrame | EyeAnalysis.GraphColorIndex |
