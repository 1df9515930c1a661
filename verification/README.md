# PowerScreen: verified models of its calibration, exclude-object, console and configuration code

PowerScreen is the touch screen program of a 3D printer. Four parts of it decide what happens
rather than how it looks, and are modelled here in Dafny 4.11:

- **Touch calibration** (`lv_touch_calibration/`). The user touches three cursors; an affine map is
  computed from the three readings and applied to every later touch. `TouchGeometry` is the algebra,
  `TouchProtocol` the step machine over samples, timers and buttons, `TouchScreen` the code itself
  (the statics of the driver and the screen object, updated in place), `TouchRuns` the theorems about
  whole runs, `TouchTimers` those about the start delay and the recalibration timeout.
- **Exclude object** (`src/exclude_object_panel.cpp`). Partial status reports are merged into a list
  of objects; a signature decides whether the rows are rebuilt; callbacks report changes; a dialog
  sends one G-code line. `ExcludeState` and `ExcludeProtocol` are the functions, `ExcludePanel` the
  class, `BedMap` the geometry, `ExcludeTheorems` (merging), `ExcludeSignature` and `ExcludeRuns` (whole
  runs) the theorems.
- **Console** (`src/console_panel.cpp`). A bounded log shown as recolor markup, a bounded command
  history, shortcut chips. `ConsoleState`, `ConsolePanel`, `ConsoleTheorems`.
- **Configuration** (`src/config.cpp`). A tree of settings is opened, completed and migrated. `Json` has
  trees, pointers (sections 3 and 4 of RFC 6901) and merge patches (section 2 of RFC 7396);
  `ConfigMigration` and `ConfigFile` have `Config::init`, `ConfigChain`, `ConfigTheorems`,
  `ConfigLeaves` and `ConfigDefaults` what it promises.

Each class method is proved equal to a function on the abstract state (`View()`), and the promises are
proved about those functions, for all inputs and all runs. `Wrappers`, `Numbers` and `Sequences` hold shared notions.

Verify everything with `dafny verify dfyconfig.toml`.

## Conventions

- Points are integers, coefficients exact reals; 0.15, 0.3 and 0.4 are exact decimals. A calibration
  with a zero divisor is the value `NonFinite`: valid for the program, but with coefficients that are
  infinite or NaN, so a transformed point is `None`.
- LVGL, the printer connection and the clock are events and parameters. LVGL is taken to count a timer
  down before it calls it and to delete it after its last call. Timers that exist are part of the state:
  start-delay timers as a number, recalibration timers by number with the ticks they have left. The
  default configuration is modelled (start delay on, timeout 30 s, automatic cursors).
- What callbacks, the printer, the database and the READY event were given is recorded in sequences.
- `Thrown` stands for an exception that leaves the operation.
- The device build is modelled (neither SIMULATOR nor OS_ANDROID).
- The JSON library is not part of the repository. A pointer is taken to step through trees as its
  unchecked access does: a null becomes an array under "-" or digits and otherwise an object, "-" stands
  for the place behind the end of an array, a position beyond the end fills the gap with nulls.

## Findings

Some things the code or its comments promise hold only under a condition. Each of these is stated with
its exact condition, and most with an input or a run in which it fails.

- The start delay is documented to keep the press that started the calibration from counting
  (lv_touch_calibration/lv_tc_config.h:65-68). A finger still down when the delay ends is recorded as the first
  cursor exactly if input was enabled or was released in between: `TouchTimers.HeldPressIsRecorded`. On a
  new screen it is enabled: `TouchTimers.HeldPressOnNewScreen`.
- Accepting is meant to end the timeout. It does so exactly if every timer forgotten by finishing a second
  calibration has run out: `TouchTimers.AcceptEndsTimeoutExactly`, step by step `TouchTimers.LeakExactly`.
  That takes a start-delay timer left over from an earlier start: `TouchTimers.NoStaleDelayNoLeak`; with
  one, the timeout later restarts the calibration: `TouchTimers.OrphanSurvivesAccept`,
  `TouchTimers.LeakHappens`.
- A calibrated touch is reported where it was made exactly if the display is not rotated (or is one pixel
  turned by a quarter): `TouchGeometry.RotationIsIdentity`. At 180 degrees the first row and column leave
  the screen: `TouchGeometry.RotationRange`.
- The automatic cursors are on the display exactly if both sides have at least 7 pixels:
  `TouchGeometry.AutoPointsOnDisplay`.
- `start_with_config` ignores its argument, of which the header says that it sets the delay; it does the
  same for either value: `TouchScreen.TcScreen.StartWithConfig`.
- The signature does not tell `a!` from an excluded `a`, nor one object `a,b` from two, nor a current
  object `a|b` from a `b|` in the first name. Displays without these it tells apart
  (`ExcludeSignature.SignatureDecides`), and every other has one it is mistaken for
  (`ExcludeSignature.UncleanCollides`). The screen shows the state last drawn, whatever the names are: the
  rows are up to date exactly if that state has the rows of the present one (`ExcludeRuns.RunShows`,
  `ExcludeRuns.ScreenAfterRun`), which can fail: `ExcludeRuns.CommaGoesStale`, `ExcludeRuns.BangGoesStale`,
  `ExcludeRuns.BarGoesStale`.
- The signature does not contain the boxes either: the map is up to date exactly if the state last drawn
  has the boxes of the present one (`ExcludeRuns.ScreenAfterRun`); a moved object alone does not redraw it
  (`ExcludeRuns.MapGoesStale`).
- Two status reports in turn are their union exactly if the second does not list a flagged object that the
  first left out, without bringing the exclusions: `ExcludeTheorems.MergeComposes`,
  `ExcludeTheorems.DroppedForgets`.
- A small object near the edge is drawn partly outside the padded area: `BedMap.DrawnSticksOut`,
  `BedMap.CornerSticksOut`; one without polygon and center is below it altogether: `BedMap.NoBoxSticksOut`.
- The dialog remembers a position, not an object. The object asked about is the one excluded exactly if the
  last list of objects has its name in that place: `ExcludeRuns.ConfirmSendsListed`,
  `ExcludeRuns.ReorderedExample`.
- An empty command history never records anything: `ConsoleTheorems.EmptyHistoryStaysEmpty`.
- A printer name with `/` or `~` is looked up elsewhere: `ConfigMigration.PrinterPathIff`.
- A printer name that leads behind the end of an array, such as `-` where `printers` is an array or
  missing, makes every start add elements to it, and the settings are never found: init is idempotent
  exactly for other names (`ConfigTheorems.InitIdempotent`, `ConfigTheorems.DashPrinter`).
- A `default_macros` that is not an object is replaced: `ConfigLeaves.InitKeepsLeaves`.

## Model

| member | source | states |
|---|---|---|
| TouchGeometry.SolveExact | lv_touch_calibration/lv_tc.c:89-133 | with a nonzero divisor the coefficients send every touch point exactly to its screen point |
| TouchGeometry.SolveRecovers | lv_touch_calibration/lv_tc.c:89-133 | any affine map is recovered from three of its samples |
| TouchGeometry.SolveCharacterized | lv_touch_calibration/lv_tc.c:89-133 | an affine map interpolates the three pairs if and only if it is the computed one |
| TouchGeometry.ZeroDivisorNotUnique | lv_touch_calibration/lv_tc.c:90-98 | with a zero divisor every interpolating map has a rival, so there is nothing to compute |
| TouchGeometry.PermutationIrrelevant | lv_touch_calibration/lv_tc.c:89-133 | the order of the three pairs does not matter |
| TouchGeometry.DivisorScales | lv_touch_calibration/lv_tc.c:90-95 | the divisor of three mapped points is the determinant times the divisor of the points |
| TouchGeometry.CalibrationInvertible | lv_touch_calibration/lv_tc.c:97-133 | the computed map is invertible exactly when the screen points are not collinear |
| TouchGeometry.CalibrationKeepsMix | lv_touch_calibration/lv_tc.c:161-165 | a barycentric combination of the touch points lands on the same combination of the screen points |
| TouchGeometry.CursorErrorBoundsError | lv_touch_calibration/lv_tc.c:89-133 | cursors missed by at most eps give a calibration that is wrong by at most eps anywhere inside the triangle |
| TouchGeometry.ReportedErrorBounded | lv_touch_calibration/lv_tc.c:161-181 | the reported pixel is then within eps and half a pixel of the true position, rotated as the display is |
| TouchGeometry.AutoPointsNotCollinear | lv_touch_calibration/lv_tc_screen.c:171-183 | at every resolution the automatic cursors are not collinear |
| TouchGeometry.AutoPointsMeaning | lv_touch_calibration/lv_tc_screen.c:171-183 | their margin is 15% of the shorter side, the first is at 30% of the height and the second at 40% of the width, cut down to whole pixels |
| TouchGeometry.AutoPointsOnDisplay | lv_touch_calibration/lv_tc_screen.c:171-183 | all of them are on the display exactly if both sides have at least 7 pixels |
| TouchGeometry.WithinHalfPixel | lv_touch_calibration/lv_tc.c:161-181 | at every rotation the reported point is within half a pixel per axis of the exactly rotated image |
| TouchGeometry.RoundMeaning | lv_touch_calibration/lv_tc.c:164-165 | rounding goes to the nearest integer, from the middle away from zero |
| TouchGeometry.RotationLaws | lv_touch_calibration/lv_tc.c:167-177 | rotations keep distances; four quarter turns and two half turns are nothing |
| TouchGeometry.RotationDirection | lv_touch_calibration/lv_tc.c:168-177 | where the origin goes, and what a step to the right and a step down become, at a quarter and at a half turn |
| TouchGeometry.RotationRange | lv_touch_calibration/lv_tc.c:168-177 | on-screen points stay on the screen, at 180 degrees exactly if neither coordinate is 0 |
| TouchGeometry.RotationIsIdentity | lv_touch_calibration/lv_tc.c:167-177 | every on-screen point is reported as it is exactly if the display is not rotated, or is a single pixel turned by a quarter |
| TouchGeometry.DegenerateTransform | lv_touch_calibration/lv_tc.c:89-166 | a point has no defined image exactly if the three touches are on one line |
| TouchGeometry.CalibrationUndoesPanel | lv_touch_calibration/lv_tc.c:89-133 | the calibration from three cursor readings inverts any invertible affine panel, and its divisor is nonzero |
| TouchGeometry.CalibrationUndoesPanelInteger | lv_touch_calibration/lv_tc.c:161-181 | the panel's reading of a screen point is transformed back to that point, rotated as the display is |
| TouchGeometry.CursorLandsOnItself | lv_touch_calibration/lv_tc.c:89-181 | with a nonzero divisor the reading of a cursor is transformed to the cursor, rotated as the display is |
| TouchScreen.Calibration.SetCoeff | lv_touch_calibration/lv_tc.c:60-66 | coefficients are installed, and handed to the save callback if asked |
| TouchScreen.Calibration.SaveCoeff | lv_touch_calibration/lv_tc.c:83-87 | the current coefficients are handed over once if a callback is set |
| TouchScreen.Calibration.InstallCoeff | lv_touch_calibration/lv_tc.c:89-141 | the installed coefficients are those of the given points |
| TouchScreen.Calibration.TransformPointIndev | lv_touch_calibration/lv_tc.c:143-159 | makes the filter's step: what is remembered and what is reported |
| TouchScreen.Calibration.ReadCb | lv_touch_calibration/lv_tc.c:187-206 | makes the machine's read step, gating and filtering included |
| TouchScreen.TcScreen.constructor | lv_touch_calibration/lv_tc_screen.c:117-130 | a new screen waits in INIT with input enabled and the automatic cursors |
| TouchScreen.TcScreen.StartScreen | lv_touch_calibration/lv_tc_screen.c:73-75 | makes the start step |
| TouchScreen.TcScreen.StartWithConfig | lv_touch_calibration/lv_tc_screen.c:77-110 | makes the start step whatever the argument: INIT, registered, one more delay timer, remembered recalibration timer gone |
| TouchScreen.TcScreen.Step | lv_touch_calibration/lv_tc_screen.c:215-232 | makes the step transition: stores the touch, moves the cursor or finishes |
| TouchScreen.TcScreen.InputCb | lv_touch_calibration/lv_tc_screen.c:185-197 | makes the input step; the sample is forwarded exactly from FINISH on |
| TouchScreen.TcScreen.HandleTouch | lv_touch_calibration/lv_tc_screen.c:199-213 | makes the step for an accepted press |
| TouchScreen.TcScreen.FinishScreen | lv_touch_calibration/lv_tc_screen.c:246-268 | creates and remembers a recalibration timer |
| TouchScreen.TcScreen.ReadyScreen | lv_touch_calibration/lv_tc_screen.c:270-292 | saves and announces the coefficients and deletes the remembered timer |
| TouchScreen.TcScreen.RecalibrateTimerCb | lv_touch_calibration/lv_tc_screen.c:295-304 | makes the countdown step, restarting at zero |
| TouchScreen.TcScreen.StartDelayTimerCb | lv_touch_calibration/lv_tc_screen.c:306-311 | makes the delay step: FIRST, whatever the step was |
| TouchRuns.BurstIndicesMeaning | lv_touch_calibration/lv_tc_screen.c:185-207 | the counting presses are exactly the first presses of bursts, in order, with a release between any two |
| TouchRuns.StepKeepsConsistent | lv_touch_calibration/lv_tc_screen.c:185-232 | every event keeps step, touch points, input flag, cursor, timers and coefficients in agreement with the session's samples |
| TouchRuns.EveryReachableState | lv_touch_calibration/lv_tc_screen.c:77-110 | after any interleaving of events from a new screen the stored touches are exactly the counting presses since the last FIRST, and at FINISH the coefficients are theirs |
| TouchRuns.CompletedCalibrationIsExact | lv_touch_calibration/lv_tc_screen.c:185-232 | touching the three cursors, however long and often, ends at FINISH with coefficients that undo the panel at every screen point, up to the rotation of the display |
| TouchRuns.AutomaticCalibrationIsExact | lv_touch_calibration/lv_tc_screen.c:171-232 | the same from the delay timer on with automatic cursors at any resolution |
| TouchRuns.NewScreenCalibrates | lv_touch_calibration/lv_tc_screen.c:77-232 | from a new screen and after any events, once a delay timer fires and the three automatic cursors are touched the panel is undone at every point |
| TouchRuns.SloppyCalibrationIsBounded | lv_touch_calibration/lv_tc_screen.c:185-232 | a session whose first three counting presses miss the cursors by at most eps ends at FINISH with coefficients that err by at most eps and half a pixel inside the touched triangle |
| TouchRuns.NewScreenErrsAtMost | lv_touch_calibration/lv_tc_screen.c:77-232 | the same from a new screen and after any events, from a delay timer on |
| TouchRuns.FinishedStaysFinished | lv_touch_calibration/lv_tc.c:143-206 | until a restart the coefficients stay, every press is reported at its calibrated point, and accepting saves those coefficients |
| TouchRuns.FinishedPressIsShown | lv_touch_calibration/lv_tc_screen.c:199-213 | after FINISH a press moves the cursor to the point LVGL is told, once the finger has been lifted since |
| TouchRuns.CalibrationIsGated | lv_touch_calibration/lv_tc.c:193-203 | before FINISH LVGL sees only a release at the origin; the completing press is forwarded, with a nonzero divisor at the third cursor, rotated as the display is |
| TouchRuns.FilterTrace | lv_touch_calibration/lv_tc.c:143-159 | over any ungated samples: presses at their points, the first release at the last press, further releases at the origin |
| TouchRuns.UncalibratedReads | lv_touch_calibration/lv_tc.c:143-163 | before the first calibration presses are reported at their raw points |
| TouchTimers.HeldPressIsRecorded | lv_touch_calibration/lv_tc_screen.c:93-105 | a press held through the start delay is recorded as the first cursor exactly if input was enabled or released meanwhile |
| TouchTimers.HeldPressOnNewScreen | lv_touch_calibration/lv_tc_screen.c:121 | on a new screen it always is |
| TouchTimers.TimeoutRestarts | lv_touch_calibration/lv_tc_screen.c:295-304 | a recalibration timer with t ticks counts them down one by one and changes nothing else; the t-th restarts at INIT, and it and the remembered timer are gone |
| TouchTimers.TimerCounts | lv_touch_calibration/lv_tc_screen.c:295-304 | over any run a timer that is still alive has counted its own ticks and no others |
| TouchTimers.FinishedTimesOut | lv_touch_calibration/lv_tc_screen.c:246-304 | a finished calibration that is not accepted is at FINISH for 29 ticks of its timer and restarts at the 30th |
| TouchTimers.LeakExactly | lv_touch_calibration/lv_tc_screen.c:261-268 | one event makes the remembered recalibration timer cease to be the only one exactly if it completes a calibration while one is remembered |
| TouchTimers.AcceptClearsExactly | lv_touch_calibration/lv_tc_screen.c:270-283 | accepting leaves no timer exactly if the remembered one is the only one |
| TouchTimers.AcceptEndsTimeoutExactly | lv_touch_calibration/lv_tc_screen.c:270-283 | after any run from a new screen accepting leaves no timer exactly if every timer forgotten in the run has run out |
| TouchTimers.NoStaleDelayNoLeak | lv_touch_calibration/lv_tc_screen.c:306-311 | without a delay timer that fires while a recalibration timer is remembered no timer is ever forgotten |
| TouchTimers.OrphanSurvivesAccept | lv_touch_calibration/lv_tc_screen.c:261-279 | after that event a second calibration and its acceptance leave the first timer counting towards a restart |
| TouchTimers.LeakHappens | lv_touch_calibration/lv_tc_screen.c:77-311 | a run from a new screen that ends with an accepted calibration and a live timer |
| ExcludePanel.FindBox | src/exclude_object_panel.cpp:164-189 | the polygon loop and the center fallback compute BoxOf |
| ExcludeTheorems.HullTightest | src/exclude_object_panel.cpp:166-181 | the box of the loop contains every vertex and each side is attained |
| ExcludeTheorems.BoxMeaning | src/exclude_object_panel.cpp:161-189 | the box is the one tightest box of the valid vertices; the 8 mm box around the center is used exactly when there are none |
| ExcludeTheorems.VerticesMeaning | src/exclude_object_panel.cpp:166-170 | the vertices are those of the entries that begin with two numbers |
| ExcludeTheorems.PolygonMeaning | src/exclude_object_panel.cpp:165-170 | the vertices of an object are the pairs of numbers its polygon entries begin with |
| ExcludePanel.ExcludeObjectPanel.ReadObject | src/exclude_object_panel.cpp:161-195 | one entry is read, with the flag of the last known object of its name |
| ExcludePanel.ExcludeObjectPanel.MarkExcluded | src/exclude_object_panel.cpp:199-213 | exactly the listed names are marked |
| ExcludeTheorems.LastFlagMeaning | src/exclude_object_panel.cpp:190-194 | an object inherits the flag of the last known object of its name |
| ExcludeTheorems.ListMeaning | src/exclude_object_panel.cpp:155-198 | a report is taken in exactly if every entry of its list can be read; the list then has their names, empty where there is none, and their boxes, in order |
| ExcludeTheorems.CurrentMeaning | src/exclude_object_panel.cpp:214-216 | the current object stays if the report names none, and is cleared, highlight and all, if it names no string |
| ExcludePanel.ExcludeObjectPanel.MergeStatus | src/exclude_object_panel.cpp:155-217 | computes Merge; an exception changes nothing |
| ExcludeTheorems.MergeMeaningful | src/exclude_object_panel.cpp:159-199 | a list field that is no list changes nothing in a merge |
| ExcludeTheorems.FullStatusDecides | src/exclude_object_panel.cpp:155-217 | a status with all three fields gives the same state whatever was known before |
| ExcludeTheorems.MergeTwice | src/exclude_object_panel.cpp:155-217 | merging any status twice is merging it once |
| ExcludeTheorems.MergeComposes | src/exclude_object_panel.cpp:155-217 | any two object reports in turn equal their right-biased union if and only if the second brings no list of objects, or brings the exclusions too, or lists no flagged name that the first did not list or the panel did not know |
| ExcludeTheorems.DroppedForgets | src/exclude_object_panel.cpp:190-213 | an excluded object that is left out and then listed again is not excluded after the two reports, but is after their union |
| ExcludePanel.ExcludeObjectPanel.SignatureText | src/exclude_object_panel.cpp:232-238 | the loop builds Signature |
| ExcludeSignature.SignatureDecides | src/exclude_object_panel.cpp:232-238 | for clean displays signatures are equal if and only if current object, names and flags are |
| ExcludeSignature.UncleanCollides | src/exclude_object_panel.cpp:232-238 | every display that is not clean has the signature of one with different rows |
| ExcludePanel.ExcludeObjectPanel.Availability | src/exclude_object_panel.cpp:240-254 | makes the callbacks' step |
| ExcludePanel.ExcludeObjectPanel.RebuildScreen | src/exclude_object_panel.cpp:284-389 | rows and drawn boxes become those of the state, for the bed read at that moment |
| ExcludePanel.ExcludeObjectPanel.SyncFromState | src/exclude_object_panel.cpp:256-267 | makes the periodic step |
| ExcludePanel.ExcludeObjectPanel.Consume | src/exclude_object_panel.cpp:269-282 | makes the status step |
| ExcludePanel.ExcludeObjectPanel.Foreground | src/exclude_object_panel.cpp:137-140 | syncs and rebuilds in any case |
| ExcludePanel.ExcludeObjectPanel.AskAbout | src/exclude_object_panel.cpp:392-400 | only a listed, not yet excluded object becomes pending |
| ExcludePanel.ExcludeObjectPanel.ExcludePending | src/exclude_object_panel.cpp:402-413 | makes the confirmation step |
| ExcludeRuns.RunShows | src/exclude_object_panel.cpp:256-413 | after any run, whatever the names, the screen shows rows and boxes of the state at the last redrawing, and that state has the signature of the present one |
| ExcludeRuns.ScreenAfterRun | src/exclude_object_panel.cpp:256-413 | the same for a new panel: rows and boxes are up to date exactly if the state last drawn has those of the present one; for two clean displays the rows are |
| ExcludeRuns.RunBed | src/exclude_object_panel.cpp:219-230 | after any run the bed of the map is that of the last valid limits found at a redrawing |
| ExcludeRuns.LastDrawnWhenClean | src/exclude_object_panel.cpp:256-413 | while displays stay clean, what draws the screen again is the first report, opening, confirming, and reports that change a name, a flag or the current object |
| ExcludeRuns.StepKeepsFresh | src/exclude_object_panel.cpp:256-282 | while displays are clean, every event keeps the rows a fresh rendering of the state; after a report or a confirmation they are |
| ExcludeRuns.RunKeepsFresh | src/exclude_object_panel.cpp:256-282 | the same after any run whose displays stay clean |
| ExcludeRuns.CommaGoesStale | src/exclude_object_panel.cpp:232-238 | a run of two reports with a comma in a name that ends with stale rows |
| ExcludeRuns.BangGoesStale | src/exclude_object_panel.cpp:232-238 | the same with a name that ends in an exclamation mark |
| ExcludeRuns.BarGoesStale | src/exclude_object_panel.cpp:232-238 | the same with a separator in the current object |
| ExcludeRuns.RowsMeaning | src/exclude_object_panel.cpp:301-347 | a row is numbered and named by its object, with blanks for underscores, its status is the word for its state, it is dimmed exactly if excluded and highlighted exactly if current and still printed |
| ExcludeRuns.MapGoesStale | src/exclude_object_panel.cpp:232-282 | a run of two reports that moves an object and leaves its old box on the map |
| Sequences.ChangesMeaning | src/exclude_object_panel.cpp:240-254 | removing adjacent repeats leaves no repeat, the same end and the same values |
| ExcludeRuns.CallbacksReportChanges | src/exclude_object_panel.cpp:240-254 | over any run each callback that is set gets the object counts, or whether there are any, without adjacent repeats |
| ExcludeRuns.ConfirmExcludesAsked | src/exclude_object_panel.cpp:392-413 | after any reports that leave the sequence of names as it was, confirming sends EXCLUDE_OBJECT NAME= and the name asked about, once, marks that object and no other, and shows it excluded |
| ExcludeRuns.OnlyPrintedAreAsked | src/exclude_object_panel.cpp:392-413 | asking and confirming sends something exactly for a listed object that is not excluded; cancelling takes the question back |
| ExcludeRuns.ConfirmSendsListed | src/exclude_object_panel.cpp:402-408 | after any reports confirming sends EXCLUDE_OBJECT NAME= and the name that the last list of objects has in that place, or nothing if it is shorter; so the asked one exactly if its name is there |
| ExcludeRuns.ReorderedExample | src/exclude_object_panel.cpp:402-408 | two objects: the command sent when they are listed again in the same order, in the other order, and no more |
| BedMap.LoadBed | src/exclude_object_panel.cpp:219-230 | the axis limits are taken over if they are two pairs of numbers that span something on both axes, and otherwise the bed is kept |
| BedMap.PlacedInside | src/exclude_object_panel.cpp:353-366 | any box on the bed is placed inside the padded area, for every bed and area |
| BedMap.PlacedInOrder | src/exclude_object_panel.cpp:353-366 | one scale on both axes, left-right order kept, y order reversed |
| BedMap.PlacedApart | src/exclude_object_panel.cpp:353-366 | boxes overlap on the map exactly if they overlap on the bed |
| BedMap.BedFills | src/exclude_object_panel.cpp:353-359 | the bed fills the area one way and is centered the other way |
| BedMap.DrawnMeaning | src/exclude_object_panel.cpp:360-366 | every box is drawn at its place and at its size, cut down to whole pixels; a side below the smallest one is drawn as the smallest |
| BedMap.LargeBoxDrawn | src/exclude_object_panel.cpp:353-366 | a 100 mm box on the own bed is drawn 112 pixels wide and high, at its place |
| BedMap.DrawnSticksOut | src/exclude_object_panel.cpp:360-366 | a drawn box leaves the padded area exactly if it is below the smallest side and begins too close to the end |
| BedMap.CornerSticksOut | src/exclude_object_panel.cpp:353-366 | a box on a 248 mm bed that ends 14 pixels outside |
| BedMap.NoBoxSticksOut | src/exclude_object_panel.cpp:353-366 | an object without polygon and center is drawn below the padded area of the program's own bed |
| ConsolePanel.EscapeLine | src/console_panel.cpp:362-369 | the loop doubles exactly the '#' characters |
| ConsolePanel.ConsolePanel.RefreshLog | src/console_panel.cpp:359-382 | the shown text is the markup of the log |
| ConsolePanel.ConsolePanel.AppendLog | src/console_panel.cpp:351-357 | a line is added and the oldest lines beyond 150 are dropped |
| ConsolePanel.ConsolePanel.ClearTheLog | src/console_panel.cpp:344-348 | the log and its text become empty |
| ConsolePanel.ConsolePanel.HandleResponse | src/console_panel.cpp:390-397 | the lines of a response are logged up to the first that is not a string |
| ConsolePanel.ConsolePanel.HandleCommand | src/console_panel.cpp:238-269 | makes the command step: log, send, remember, store, refresh |
| ConsolePanel.ConsolePanel.HandleMacros | src/console_panel.cpp:276-293 | a stored list of strings replaces the history and macro names are added; a stored value that is neither null nor such a list throws and changes nothing |
| ConsolePanel.ConsolePanel.RefreshChips | src/console_panel.cpp:296-332 | the two loops show ChipsFor |
| ConsoleTheorems.DecodeRender | src/console_panel.cpp:359-381 | reading "##" as '#' and a lone '#' as delimiter recovers exactly the (color, line) pairs, whatever the lines contain |
| ConsoleTheorems.OccursMeaning | src/console_panel.cpp:375 | the search finds a word exactly if it stands somewhere in the text |
| ConsoleTheorems.RedMeaning | src/console_panel.cpp:370-379 | a line is red exactly if it is no comment and begins with `!!` or contains "error" in any letter case |
| ConsoleTheorems.ColorMeaning | src/console_panel.cpp:370-379 | when exactly a line is muted, red, green and white, in terms of its beginning and the word "error" |
| ConsoleTheorems.MarkupMeaning | src/console_panel.cpp:361-381 | the text shown for one gray, red or green line |
| ConsoleTheorems.RenderInjective | src/console_panel.cpp:359-381 | two logs have the same text if and only if they are the same |
| ConsoleTheorems.LogIsLastLines | src/console_panel.cpp:344-357 | after any run the log is the last 150 lines logged since the last clear, shown as its markup |
| ConsoleTheorems.StringsMeaning | src/console_panel.cpp:390-397 | the logged lines of a response are those before the first that is not a string |
| ConsoleTheorems.HistoryIsRecentCommands | src/console_panel.cpp:248-265 | while none is loaded, a non-empty history is the beginning of the unlimited most-recent-first list, 20 entries or as many as there already were |
| ConsoleTheorems.EmptyHistoryStaysEmpty | src/console_panel.cpp:248 | commands are remembered exactly if there was a history |
| ConsoleTheorems.LoadMeaning | src/console_panel.cpp:274-293 | a stored list becomes the history string by string, null keeps it, macro names are added behind the known ones and the chips show both; anything else changes nothing |
| ConsoleTheorems.HistorySinceLoad | src/console_panel.cpp:238-293 | after any run the history is the beginning of the unlimited one over what was stored at the last load |
| ConsoleTheorems.CommandsAreSent | src/console_panel.cpp:238-246 | every non-empty command is sent once, in order |
| ConsoleTheorems.StoredHistoryIsCurrent | src/console_panel.cpp:248-263 | while none is loaded, the database is given exactly the histories after each command, where they differ from the one before, and nothing without a history; so the last one given is the history |
| ConsoleTheorems.ChipsMeaning | src/console_panel.cpp:295-332 | the chips are exactly the first 16 matches of history followed by macros, in order |
| ConsoleTheorems.MatchesMeaning | src/console_panel.cpp:324 | an entry matches if it begins with what is typed, as it is or in capitals throughout |
| ConsoleTheorems.ChipsAreCurrent | src/console_panel.cpp:232-332 | after any run the macros are all those reported, and the chips are those of history and macros for the text typed since the last command or load |
| ConfigFile.Config.Reference | src/config.cpp:104 | a reference through a pointer shows the value and creates what is missing, in objects and arrays |
| ConfigFile.Config.FillNull | src/config.cpp:104-107 | a null or missing value is replaced by its default, any other is kept |
| ConfigFile.Config.RenameMacros | src/config.cpp:123-136 | the two loops rename the two macro entries |
| ConfigFile.Config.FixMacros | src/config.cpp:114-137 | makes the macro repair |
| ConfigFile.Config.InitFile | src/config.cpp:24-178 | the whole of init computes Init, or throws exactly when Init does |
| ConfigMigration.PrinterPathIff | src/config.cpp:102-104 | the printer's settings are those of the member with its name exactly if the name has neither '/' nor '~' |
| Json.PointerRoundTrip | src/config.cpp:104 | a path written with escaped tokens is read back as that path |
| Json.UnescapeMeaning | src/config.cpp:104 | a name can be read as tokens exactly if every "~" is followed by 0 or 1 |
| ConfigChain.RenameMeaning | src/config.cpp:124-127 | a macro is renamed exactly if it has an old name, and never ends with one |
| Json.MergePatchMeaning | src/config.cpp:115-121 | a merge patch member by member |
| ConfigChain.AddsCooldown | src/config.cpp:119-121 | the merge patch sets the cooldown entry and keeps all others |
| ConfigChain.MigratedTwice | src/config.cpp:114-137 | migrated macros have a cooldown and migrating them again changes nothing |
| ConfigDefaults.MacrosWritten | src/config.cpp:65-70 | the migrated macros of a file without any, of the built-in ones and of one that is no object, written out |
| ConfigTheorems.EditsApart | src/config.cpp:104-175 | no two repairs touch the same place or the entries handled apart |
| ConfigChain.AllApplied | src/config.cpp:104-175 | after a chain of repairs at separate places that do not append each place holds its own repair of what it held before |
| ConfigTheorems.InitRepairsAll | src/config.cpp:98-178 | after init every setting it is responsible for is there, not null and needs no further repair, except the printer's settings if its name appends, which are missing |
| ConfigDefaults.PrinterDefaults | src/config.cpp:27-148 | the sensors, fans, macros, log level and init script that init fills in, written out; what was there is kept |
| ConfigDefaults.GeneralDefaults | src/config.cpp:149-175 | the rotation, calibration, emergency stop and sleep settings that init fills in, written out |
| ConfigDefaults.PathAndTheme | src/config.cpp:98-178 | the path of the file is noted and the theme removed |
| ConfigTheorems.InitIdempotent | src/config.cpp:98-178 | init on its own result changes nothing if and only if the printer's name does not append |
| ConfigTheorems.DashPrinter | src/config.cpp:102-108 | a printer named "-" under an array or nothing: init succeeds and its next run changes the tree again |
| ConfigLeaves.InitKeepsLeaves | src/config.cpp:98-178 | every scalar, and every array no repair goes through, keeps its value except config_path, theme, renamed macros and macros that are not an object |
| ConfigLeaves.InitChangesNothingElse | src/config.cpp:98-178 | at any path apart from the repaired ones what is present is what it was; what is absent still reads as null unless the printer's name appends, and is still absent if no array is on the way |
| ConfigTheorems.InitSucceedsExactly | src/config.cpp:98-178 | init throws exactly for a root that is neither an object nor null, a default printer that is neither a string nor null, a stray "~" in its name, or a step to its settings through a scalar or through an array by no position |
| ConfigTheorems.FreshInstallSucceeds | src/config.cpp:71-178 | without a file init succeeds |
| ConfigDefaults.FreshInstall | src/config.cpp:71-137 | the sensors, fans, macros and log level of a fresh installation, written out |
| ConfigDefaults.FreshEntries | src/config.cpp:74-86 | its paths, sleep time and default printer |
| ConfigDefaults.FreshConnection | src/config.cpp:87-95 | its connection |
| Json.PutThenGet | src/config.cpp:106 | what is assigned through a pointer that does not append is found there |
| Json.PutOpens | src/config.cpp:106 | an assignment throws exactly if a step of its pointer is not possible |
| Json.PutIntoNull | src/config.cpp:104-106 | what a null becomes under a word, a position, "-" and tokens that are neither |
| Json.PutIntoArray | src/config.cpp:104-106 | what an array becomes at a position inside, at its end, beyond it, and where it throws; a scalar throws |
| Json.PutGrows | src/config.cpp:106 | an assignment through a pointer that appends makes the array one element longer, and the next one again |
| Json.PutElsewhere | src/config.cpp:106 | what is present at paths that diverge from it stays, and what is absent still reads as null unless the pointer appends |

## Left out

- LVGL widgets, layout, styles, images, fonts and the drawing of the cursor (its offset and the position it gets while hidden at INIT); the texts of labels and the visibility of buttons, so buttons may be clicked at any time.
- Floating-point rounding, NaN and overflow, and the 16-bit width of LVGL coordinates: reals and unbounded integers are used.
- The test for a missing raw read callback (lv_touch_calibration/lv_tc.c:188) and the coefficients from the build configuration.
- More than one calibration screen: the registered screen is the application's one.
- WebSocket and printer traffic, threads and locks, and writing files: handlers are atomic, what they send is recorded.
- JSON text: parsing and printing are not part of this model; one number type stands for the library's three.
- Put: a position so large that the array does not fit in memory, or that it does not fit the library's index type, is filled up to like any other.
- Merge: extracting `exclude_object` from the notification and the full state's own merging are not part of this model; the statuses are its inputs.
- ConsolePanel.RefreshLog: a NUL character, at which a label's text would end, is not treated specially; letters are ASCII for changing case.
- The simulator and Android builds, which start from other default trees, and reading the thumbnail and Wi-Fi settings.
- Homing, extruder, fine-tune, fan, LED, bed mesh, belts, input shaper and file panels: they set up widgets, clamp values and send single commands.
