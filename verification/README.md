# Meal-weighing kiosk: calibration, capture log and RGBD container

The kiosk photographs a meal with a RealSense depth camera, weighs it on an
HX711 load cell, logs the capture locally and uploads it. Almost all of the
program is Qt widgets, device drivers and worker threads. This project models
the four pieces of sequential logic inside it as pure Dafny functions over
immutable records, and proves what they promise.

- **Weight-sensor calibration** (`ui/test_module_page.py`), in modules
  `TrimmedMean`, `Keypad` and `TestModule`:
  - `process_value`, a trimmed mean. It sorts the samples, drops a tenth from
    each end and averages the rest.
  - The two-phase sampling machine (`weight_sum_handler`, `read_empty_value`,
    `reset_weight_reader`). It takes 60 debug readings of the empty scale,
    then asks for the reference object's weight, then takes 60 readings of the
    object. The reference unit it emits is
    `(object mean - empty mean) / object weight`.
  - The decimal keypad buffer (`KeyBoard.command_handler`).
  - The test page's panel and LED timers.
- **Weight reading** (`utils/weight_reader.py`), module `WeightReading`. The
  raw driver reading is an input. Normal reads clamp at 0 and debug reads do
  not. `setup` and `reset` set the driver's scale and offset.
- **RGBD container** (`utils/depth_camera.py` and `read_npz.py`), modules
  `NpzFile`, `DepthCamera` and `RgbdReader`:
  - the stream choice;
  - the frame cache with its once-latched intrinsic;
  - the seven entries `save_file` writes;
  - the reader's key check, defaults and depth scaling;
  - the tray's channel reversal and preprocessing chain.

  Together they give a write-then-read round trip.
- **Capture record and log** (`main.py`), module `Capture`:
  - the time-stamped file name and path;
  - the recorded weight;
  - the upload payload;
  - the JSON log merge (`save_json`);
  - the config write-back (`save_config`);
  - the one-second timer, which `save_file` stops first so it fires once
    per capture (main.py:180), and the reset of the per-capture fields.

These modules are shared helpers:

- `Wrappers` provides `Option` and `Result`.
- `Decimal` covers digit strings: zero-padded strftime fields and `str()` of
  a natural number, each with its parse-back lemma.

Several things are parameters rather than effects:

- The clock is a `Stamp` argument. `save_file` reads the clock twice, so it
  gets `now` and `today`.
- Every raw reading is an argument: a load-cell value, a frame set, a tare
  offset.
- Files are values. The npz container is a `Container` record. The day's log
  is a `LogFile` value, and the files written are a map from path to
  container.
- Python's `str` on config values is a function argument.

Exceptions are `Failure` values. An operation that would raise part-way
returns the failure.

Edge cases the code leaves open, modelled as they behave:

- The code checks neither a non-positive object weight
  (ui/test_module_page.py:516-518, 577) nor a zero divisor
  (ui/test_module_page.py:205). So the keypad confirms `0`, and the object
  phase then ends in `ZeroDivisionError`, which is `Failure(ZeroObjectWeight)`
  here (`TestModule.CalibrationZeroWeight`).
- `process_value` on fewer than ten samples trims nothing, and
  `value[0:-0]` is empty. The division then fails, which is
  `Failure(EmptySlice)` here rather than a precondition.

## Model

| member | source | states |
|---|---|---|
| TrimmedMean.SortPermutes | ui/test_module_page.py:178 | the sorted list holds exactly the readings it was given (same multiset) |
| TrimmedMean.SortSorted | ui/test_module_page.py:178 | the sorted list is ascending |
| TrimmedMean.SortedUnique | ui/test_module_page.py:178 | two ascending lists with the same readings are equal, so the sort's result is determined by the readings |
| TrimmedMean.TrimAmount | ui/test_module_page.py:179 | the trim is the sample count divided by ten, rounded down: zero exactly below ten samples |
| TrimmedMean.PySlice | ui/test_module_page.py:180 | Python slicing: in-range bounds slice directly, a negative stop counts from the end, and a stop of 0 gives the empty list |
| TrimmedMean.ProcessValue | ui/test_module_page.py:176-181 | the filter succeeds exactly when there are at least ten samples; fewer trim nothing and the empty slice fails |
| TrimmedMean.ProcessValueMeaning | ui/test_module_page.py:176-181 | with at least ten samples, floor(n/10) > 0 are dropped from each end of the sorted list, the result is the mean of the rest, and it lies between the smallest and the largest reading |
| TrimmedMean.KeptShape | ui/test_module_page.py:179-180 | below ten samples nothing is kept; otherwise the kept samples are the sorted list minus floor(n/10) at each end |
| TrimmedMean.KeptWithinRange | ui/test_module_page.py:178-180 | every kept sample lies between the minimum and the maximum of the input |
| TrimmedMean.MeanWithin | ui/test_module_page.py:181 | the mean of values bounded by lo and hi is bounded by lo and hi |
| TrimmedMean.OrderIrrelevant | ui/test_module_page.py:178 | the result depends only on which readings were taken, not their order |
| TrimmedMean.FullPhase | ui/test_module_page.py:15 | a full phase of 60 readings drops 6 from each end and averages the middle 48 |
| TrimmedMean.SortOfSorted | ui/test_module_page.py:178 | sorting an ascending list leaves it as it is |
| TrimmedMean.TrimmedOfSorted | ui/test_module_page.py:176-181 | for readings already ascending, the result is the mean of the middle slice |
| TrimmedMean.OneToTen | ui/test_module_page.py:176-181 | the readings 1..10 lose 1 and 10 and give 5.5 |
| WeightReading.Create | utils/weight_reader.py:8-13 | a new reader publishes 0, keeps the configured reference unit and holds the given driver |
| WeightReading.Setup | utils/weight_reader.py:15-19 | setup publishes 0 and the driver gets the configured unit and the tare offset |
| WeightReading.Read | utils/weight_reader.py:26-32 | a debug read publishes the raw value; a normal read publishes a non-negative value, equal to the raw one exactly when that is non-negative and 0 otherwise; the driver is untouched |
| WeightReading.Reset | utils/weight_reader.py:34-37 | reset gives the driver offset 0 and unit 1, and leaves the wrapper's own unit and value alone |
| WeightReading.SetupAfterReset | utils/weight_reader.py:13-17 | since reset keeps the wrapper's unit, a later setup installs the configured unit as if there had been no reset |
| WeightReading.NormalReadsNonNegative | utils/weight_reader.py:29-30 | after any run of normal reads the published weight is non-negative and the driver unchanged |
| WeightReading.LastReadWins | utils/weight_reader.py:26-30 | after a run of reads the published weight is the last reading, clamped in normal mode |
| Keypad.Parse | ui/test_module_page.py:577 | `float()` on the keypad's text succeeds exactly on digits with at most one point and at least one digit, and gives a non-negative number |
| Keypad.Press | ui/test_module_page.py:567-579 | a digit is appended; a point is appended exactly when the buffer has none; Del drops the last character and leaves an empty buffer as it is; a press fails exactly on a Confirm whose buffer does not parse; a successful Confirm hands on the parsed weight and no other key hands on anything |
| Keypad.PressKeepsWellFormed | ui/test_module_page.py:568-575 | every key press keeps the buffer to digits and at most one point |
| Keypad.NeverTwoDots | ui/test_module_page.py:570-572 | whatever keys are pressed, the buffer never holds two points |
| Keypad.DelUndoesNum | ui/test_module_page.py:568-575 | Del after a digit gives the buffer back |
| Keypad.DotOnce | ui/test_module_page.py:570-575 | a point on a buffer without one is undone by Del, and a second point changes nothing |
| Keypad.DelOnEmpty | ui/test_module_page.py:573-575 | Del on an empty buffer leaves it empty |
| Keypad.AppendDot | ui/test_module_page.py:570-572 | typing the point after at least one digit leaves the number unchanged |
| Keypad.ParseTwelvePointFive | ui/test_module_page.py:577 | `float('12.5')` is 12.5, obtained by typing one character at a time through the step lemmas |
| Keypad.TwelvePointFive | ui/test_module_page.py:567-579 | pressing 1, 2, point, 5 and Confirm leaves the buffer `12.5` and hands on the weight 12.5 |
| Keypad.ConfirmNeedsDigit | ui/test_module_page.py:576-577 | Confirm on a buffer the keypad built fails exactly when it has no digit, so on "" and on "." |
| Keypad.AppendWholeDigit | ui/test_module_page.py:568-569 | before the point, a digit key multiplies the number by ten and adds the digit |
| Keypad.AppendFractionDigit | ui/test_module_page.py:568-569 | after the point, a digit key adds the digit at the next decimal place |
| TestModule.Init | ui/test_module_page.py:135-140 | the constructor leaves a page ready to calibrate: status 0, 60 readings to go, both lists empty; no panel shown, all three timers off, LED status 0, object weight 0, the clear view, an empty keypad buffer and the given reader |
| TestModule.ChangeComponent | ui/test_module_page.py:146-157 | the LED timer runs exactly when the LED panel is shown and the weight timer exactly when the weight panel is; nothing else changes |
| TestModule.ChangeComponentLastWins | ui/test_module_page.py:146-157 | only the last panel switch matters |
| TestModule.LedHandler | ui/test_module_page.py:167-170 | the LED shows the colour at the current status and the status advances by one modulo 3 |
| TestModule.LedCycle | ui/test_module_page.py:167-170 | three LED ticks show setup, idle and busy in cyclic order and return to the starting state |
| TestModule.WeightHandler | ui/test_module_page.py:172-174 | the live weight is one normal read, so it is never negative |
| TestModule.ConfigUpdate | ui/test_module_page.py:207-211 | the emitted dict has one section, `weight`, with one attribute, `reference_unit`, holding the unit |
| TestModule.Append | ui/test_module_page.py:188-190 | appending succeeds exactly on a list; a slot already reduced to a number has no `append` |
| TestModule.AppendAtEnd | ui/test_module_page.py:188-190 | an appended reading lands at the end: the list grows by one and keeps its old readings in order |
| TestModule.SumTick | ui/test_module_page.py:183-225 | one sum-timer tick in any state: the driver's value becomes the new reading; it fails if the phase's list is already a number; a tick before the last appends to the phase's list and counts down without emitting; the last restores the counter, stops the timer and switches phase |
| TestModule.CompletePhase | ui/test_module_page.py:195-225 | ending the empty phase succeeds exactly when it holds at least ten readings and shows the input view; ending the object phase emits a unit that times the weight gives the difference of the means, installs it in the driver, clears both lists and the weight, and shows the finish view; either way the counter is restored, the timer stopped and the phase switched |
| TestModule.Process | ui/test_module_page.py:199-202 | reducing a slot succeeds exactly on a list of at least ten readings and gives their trimmed mean; a shorter list fails at the empty slice, and a slot already reduced to a number fails |
| TestModule.Quotient | ui/test_module_page.py:205 | the reference unit times the object weight is the difference of the means |
| TestModule.ReferenceUnit | ui/test_module_page.py:204-205 | the division succeeds exactly when both means exist and the weight is non-zero; a zero weight fails |
| TestModule.ReadEmptyValue | ui/test_module_page.py:227-236 | starting a phase stops the live weight, resets the driver to raw readings, starts the sum timer and shows the wait view; nothing else changes |
| TestModule.Confirm | ui/test_module_page.py:516-518 | a confirmed weight is stored and the object phase starts as `read_empty_value` starts one |
| TestModule.KeyPressed | ui/test_module_page.py:567-579 | a key press on the weight panel fails exactly on an unparsable Confirm; a parsable Confirm starts the object phase with the parsed weight; any other key changes only the keypad buffer, as the keypad's press does |
| TestModule.ResetWeightReader | ui/test_module_page.py:238-242 | the finish button re-tares the driver, keeps its unit, restarts the live weight and shows the clear view; nothing else on the page changes |
| TestModule.TickRecords | ui/test_module_page.py:184-192 | a tick before the phase's last appends the unclamped debug reading to the current phase's list and counts down by one |
| TestModule.TickEndsEmptyPhase | ui/test_module_page.py:195-225 | the empty phase's last tick replaces the list by its trimmed mean, restores the counter, stops the timer, shows the input view and moves to status 1 |
| TestModule.TickEndsObjectPhase | ui/test_module_page.py:195-225 | the object phase's last tick emits the reference unit and installs it in the driver, clears both lists and the weight, shows the finish view and returns to status 0; with a zero weight it fails |
| TestModule.Collect | ui/test_module_page.py:183-192 | readings short of the phase's end are appended one by one, in order, without completing the phase |
| TestModule.EmptyPhase | ui/test_module_page.py:183-225 | after the empty phase's last reading the empty slot holds the trimmed mean of all its readings and the page asks for the weight |
| TestModule.ObjectPhase | ui/test_module_page.py:183-225 | after the object phase's last reading the unit is (trimmed object mean - empty mean) / weight, it is emitted and installed, and the state is cleared; a zero weight fails |
| TestModule.Calibration | ui/test_module_page.py:183-236 | the whole protocol from a fresh page, 60 empty readings, a non-zero weight and 60 object readings, emits (mean of objects - mean of empty) / weight, installs it in the driver, shows the finish view and leaves the page fresh |
| TestModule.CalibrationZeroWeight | ui/test_module_page.py:205 | the same protocol with weight 0 fails at the division |
| DepthCamera.HasRgbSensor | utils/depth_camera.py:23-30 | the sensor scan finds a colour sensor exactly when one is named "RGB Camera" |
| DepthCamera.Configure | utils/depth_camera.py:23-37 | without a colour sensor nothing streams; otherwise depth is 640x480 Z16 at 30 fps, and colour is BGR8 at 30 fps, 960x540 exactly when the product line is "L500" and 640x480 otherwise |
| DepthCamera.Init | utils/depth_camera.py:9-11 | a new camera holds no images and no intrinsic |
| DepthCamera.Read | utils/depth_camera.py:52-72 | an incomplete frame set returns nothing and changes nothing; a complete one replaces both images and returns them; the intrinsic is taken only when none is held |
| DepthCamera.ReadAll | utils/depth_camera.py:52-72 | images and intrinsic stay set together through any run of reads |
| DepthCamera.IntrinsicLatched | utils/depth_camera.py:65-66 | after any run of reads the intrinsic is the one already held or else that of the first complete frame set |
| DepthCamera.LatestImages | utils/depth_camera.py:61-72 | after a run of reads the images are those of the last complete frame set, or unchanged when there was none |
| DepthCamera.SaveFile | utils/depth_camera.py:74-87 | saving succeeds exactly when an intrinsic is held and writes exactly the seven entries, each from the current state |
| DepthCamera.SaveNeedsRead | utils/depth_camera.py:9-11 | a new camera cannot save; after a run of reads it can exactly when at least one frame set was complete |
| RgbdReader.ScaleDepth | read_npz.py:21 | scaling keeps the depth map's shape and multiplies every sample by the scale |
| RgbdReader.ReadNpzFile | read_npz.py:16-27 | reading succeeds exactly when both image entries are present |
| RgbdReader.LoadRgbd | read_npz.py:5-13 | `RGBDData` holds the path and what the reader returned, and fails when it fails |
| RgbdReader.ReadStored | read_npz.py:19-25 | the image comes back unchanged, the depth scaled by the stored scale, and the stored focal lengths are used when present |
| RgbdReader.ReadDefaults | read_npz.py:21-23 | each key falls back on its own: without a stored scale the depth keeps its raw values, without `fx` the default 615.4642333984375 is used, without `fy` the default 615.4144897460938, whatever the other keys hold |
| RgbdReader.RoundTrip | read_npz.py:19-25 | reading what the camera saved gives its colour image unchanged, its depth times its scale, and its intrinsic's focal lengths, never the defaults |
| RgbdReader.MissingImageRejected | read_npz.py:26-27 | a container missing either image is a KeyError |
| RgbdReader.ReverseChannels | read_npz.py:41 | every pixel's channels are reversed and the shape is kept |
| RgbdReader.ReverseChannelsTwice | read_npz.py:41 | reversing the channels twice gives the image back |
| RgbdReader.NewTray | read_npz.py:31-36 | a new tray holds its file and nothing loaded |
| RgbdReader.ReadData | read_npz.py:38-42 | loading a tray succeeds exactly when both images are present; the tray's image is the stored one with channels reversed, and its depth is the scaled depth |
| RgbdReader.PreprocessBase | read_npz.py:57-59 | no steps leave the depth unchanged, and one step applies its function once |
| RgbdReader.PreprocessAppend | read_npz.py:57-59 | steps run in list order: running a + b is running a, then b |
| RgbdReader.TrayPreprocess | read_npz.py:57-59 | the tray's new depth is its depth run through the steps in list order; nothing else on the tray changes |
| Capture.StampText | main.py:182 | the timestamp is fourteen digits |
| Capture.StampRoundTrip | main.py:182 | the fourteen digits read back as the year, month, day, hour, minute and second that were printed |
| Capture.DayText | main.py:48 | the day folder's name is eight digits that read back as the year, month and day, the first eight digits of the capture timestamp's layout |
| Capture.DateText | main.py:194 | the meal date is year, dash, month, dash, day, and the three fields read back as the date |
| Capture.Join | main.py:184 | POSIX `os.path.join`: an absolute second part replaces the first; otherwise the two are joined with one `/` unless the first is empty or already ends in one |
| Capture.JsonPath | main.py:53 | the log's path is the day folder, `/`, then `data.json` |
| Capture.SaveFolder | main.py:48 | the day folder is the start-up date's eight digits under the configured directory, after a separator |
| Capture.DayFolderFiles | main.py:48-53 | the container is `{folder}/{name}.npz` and the log `{folder}/data.json`, both directly inside the day folder |
| Capture.MealCode | ui/user_control.py:80-87 | the before-meal button sends 0 and the after-meal button 1 |
| Capture.SaveTypeText | main.py:182-183 | `str` of the meal type prints its decimal digits, which read back as the number, or `None` when none is set |
| Capture.SaveTypeRoundTrip | main.py:182-183 | the meal type's text determines the meal type, `None` included |
| Capture.FileName | main.py:182-183 | the name starts with the 14-digit timestamp of the capture, then `_` |
| Capture.FileNameRoundTrip | main.py:182-183 | the name decodes back to the timestamp, the user id and the meal type |
| Capture.FilePath | main.py:184 | the container's path is the day folder, `/`, the file name and `.npz` |
| Capture.SaveJson | main.py:225-235 | the merged log's keys are the old and new keys; new keys carry the new entries and every other key keeps its value; a log that is not an object fails |
| Capture.SaveJsonFresh | main.py:226-230 | without a log file the log is exactly the new entries |
| Capture.SaveJsonIdempotent | main.py:232 | merging the same entries twice gives the same log as merging them once |
| Capture.SaveJsonOne | main.py:226-232 | merging one entry stores it under its key, adds no other key, and keeps every other entry |
| Capture.SaveJsonTwice | main.py:232 | merging a then b is merging a + b, with b winning |
| Capture.SaveConfig | main.py:329-332 | the write-back succeeds exactly when every given section exists; each given attribute becomes `str` of its value and every other section and attribute is unchanged |
| Capture.SaveConfigIdempotent | main.py:329-332 | writing the same values twice gives the config that writing them once gives |
| Capture.CalibrationSaved | ui/test_module_page.py:207-211 | the dict the calibration emits, if passed to main.py's `save_config`, would be written back exactly when the config has a `weight` section, as the text of `reference_unit`, with every other setting unchanged |
| Capture.RecordedWeight | main.py:193 | the recorded weight is the reader's value when the reader came up, else 0 |
| Capture.UserButtonHandler | main.py:266-268 | choosing a user stores it and nothing else |
| Capture.UserControlHandler | main.py:172-177 | a meal-type press stores the button's number and arms the timer; nothing else changes |
| Capture.ReturnUploadResult | main.py:237-238 | the upload verdict sets the upload flag and nothing else |
| Capture.SaveFile | main.py:179-223 | the timer is always stopped; an upload starts exactly when a user is chosen and the camera has a frame; the capture completes exactly when, in addition, the log is an object; a failed log write still leaves the container at `{save_folder}/{file_name}.npz` and the upload started with that path |
| Capture.CaptureRecorded | main.py:191-220 | a completed capture logs one entry under its file name, holding the user, the recorded weight, the meal type and the upload flag as it stood; no other log key changes; the payload carries the same user and type, and the weight from the same reading; the user, the meal type and the flag are cleared |
| Capture.CaptureStored | main.py:182-186 | a capture past the user and the camera writes the container at `{save_folder}/{file_name}.npz`, hands that path to the upload, and leaves every other file as it was |
| Capture.FiresOnce | main.py:180 | with a user chosen, a camera frame held and an object log the capture completes, and a second tick after it finds no user and changes nothing |
| Capture.CaptureCycle | main.py:172-220 | choosing a user, pressing a meal type and letting the timer fire logs that user and type under a name that decodes to them, and clears the per-capture fields |
| Capture.CaptureReadsBack | main.py:184-186 | loading the file at the upload's path gives back the camera's colour image, its scaled depth and its focal lengths |

## Left out

- The Qt widgets, layouts and page switching are not modelled. This includes
  the progress bar, `change_page`, the message and loading pages, and the LED
  GPIO writes. The model keeps only the state that the modelled logic reads
  (timers as flags, the weight panel's view, the LED status key).
- Worker threads, the thread pool and the upload client are concurrency and
  network. The upload is returned as an `UploadJob` value, and its verdict
  arrives through `Capture.ReturnUploadResult` at any time.
- The HX711 driver's internals are not modelled. A reading is an argument,
  `tare` sets the offset to an argument, and the driver's own `reset` is
  taken to change neither scale nor offset.
- Floating point is modelled as exact `real` arithmetic. Weights, means,
  scales and the reference unit have no rounding.
- Startup sequencing is not modelled, and `is_weight_reader_ok` is an input.
  The user-list fetch and cache are also left out.
- Keypad.Parse: models `float()` only on text made of the keypad's keys,
  which is all the buffer can hold.
- DepthCamera.SaveFile: requires that images and intrinsic are set together.
  The code does not check this, but every state reachable from the
  constructor through `read` keeps it (`DepthCamera.ReadAll`).
- Capture.SaveFile: requires a valid timestamp (a four-digit year) and the
  camera invariant above. Each exception is modelled as the step that raised
  it with nothing after it. Writes before the raise are kept: a failed log
  write still leaves the container written and the upload started.
- Capture.SaveFile: takes one reading of the reader's `val` for both the
  payload and the log entry. The code reads it twice (main.py:193 and
  main.py:210) while the weight worker keeps overwriting it, and reads the
  camera's fields while the camera worker updates them, so the two values
  can differ there.
- Capture.CalibrationSaved: `save_config_signal` (ui/test_module_page.py:67,
  emitted at :207) has no receiver in the code. The window never builds the
  test page, and only the settings page's signal reaches `save_config`
  (main.py:95). The lemma states what the two halves would do if connected.
- Capture.SaveConfig: a missing section fails the whole write-back. The code
  may already have changed earlier sections in memory when it raises. The
  model also leaves out configparser's lower-casing of attribute names.
- Capture.SaveJson: JSON key order and indentation are not modelled; the log
  is a map.
- Capture.FileNameRoundTrip: the user id is a natural number. The code
  formats whatever `user_id` the server sent.
- Capture.UserControlHandler: the meal type is a natural number. The two
  buttons send 0 and 1 (`Capture.MealCode`), and `button_click_signal`
  carries an int (ui/user_control.py:37); negative numbers are not modelled.
- Camera frames and the npz compression are values. `wait_for_frames`,
  alignment, the colour map and `savez_compressed` are device and library
  code.
