# Object Counter — verified model of the session logic

The object counter is a desktop window that finds and counts objects in a still image or
a live webcam feed. Its own logic, apart from image-library calls and widget layout, is
held in the `ObjectCounterApp` session object of `ObjCount.py`. This project models that
logic in Dafny and proves properties of it:

- **Sliders** (`Sliders.dfy`): the slider callbacks receive `int(float(v))`, which is
  truncation toward zero (`Truncate`). The blur-size callback makes the kernel size odd by
  bumping an even value by one (`CoerceOdd`).
- **Detection** (`Detection.dfy`): the contour area filter and the frame-rate guard. The
  grey/blur/adaptive-threshold/contour chain, resizing and box drawing are library calls.
  They enter as the total functions of a `Vision` record. `findContours` receives only the
  frame and the blur size, as the library chain does. A contour carries the area the
  library computes for it. `Kept` is the reference definition of the filter. `Fps` is the
  guarded inverse of the processing time, and `Detect` is one run of the detection step.
- **Session value** (`SessionState.dfy`): the window's state as a `Session` value holding
  the mode, the capture device, the button flags and labels, the readouts, the last
  annotated frame and the parameters. One transition function is given per handler.
  `Consistent` is the invariant every reachable state keeps, and lemmas state what each
  handler promises.
- **Session object** (`App.dfy`): class `ObjectCounterApp`, whose fields are the source's
  fields and whose methods update them in place. Every method that changes the object is
  proved to keep `Valid()` and to take `State()` to the matching transition.
  `CountObjectsInFrame` and `SaveResult` change nothing and are specified by what they
  return. `CountObjectsInFrame` holds the source's filter loop, proved against `Kept`.

Inputs that the program gets from the outside are parameters. These are a loaded image
(`Option<Frame>`, `None` when the file cannot be read), whether the device opens, each
frame read (`Failed` or `Grabbed(frame, processingTime)`), the processing time and the
file-dialog answers (an empty string when cancelled).

The initial state comes from the constructor (ObjCount.py:17-21) and from the widgets built
in `setup_ui`: the webcam button reads "Start Webcam" (ObjCount.py:97), Save starts disabled
(ObjCount.py:107), the count reads "Objects Detected: 0" (ObjCount.py:114), the rate reads
"FPS: -" (ObjCount.py:123) and each slider readout shows its initial value
(ObjCount.py:165). The source never disables the webcam button, so only its label is kept.

Three facts about the code shape the session model:

- A failed frame read only breaks the worker loop. The device is not released and
  `running` stays true, so the session stays streaming with the device held until the user
  presses Stop. Reads after the failure are ignored, and the display keeps the last good
  frame (`RunLoopStopsAtFailure`, `RunLoopKeepsMode`, `FirstReadFails`).
- Stopping while idle enables Save and shows "Webcam stopped", so it is not a no-op. It is
  idempotent (`StopProperties`), and the toggle only calls it while streaming.
- Save can be enabled with no result to save: start the webcam, then stop it before a
  frame arrives. That is why saving checks for a last result (`SaveEnabledWithoutResult`).

## Model

| member | source | states |
|---|---|---|
| `Sliders.Truncate` | ObjCount.py:158 | `int()` of a float truncates toward zero: for x ≥ 0 the result r satisfies r ≤ x < r+1, and for x < 0 it satisfies r−1 < x ≤ r |
| `Sliders.CoerceOdd` | ObjCount.py:184-185 | the stored blur size is odd and equals the value or the value plus one |
| `Sliders.CoerceOddCases` | ObjCount.py:185 | an odd value is kept unchanged and an even value becomes value+1, each as an if-and-only-if |
| `Sliders.CoerceOddIdempotent` | ObjCount.py:183-186 | applying the coercion to an already coerced size changes nothing |
| `Sliders.BlurSliderStaysInRange` | ObjCount.py:76-81 | every blur slider position in 1..15, after truncation and coercion, gives an odd size in 1..15 |
| `Sliders.FourteenBecomesFifteen` | ObjCount.py:185 | the even value 14 is stored as 15 |
| `Detection.KeptMembership` | ObjCount.py:206-212 | a contour is kept iff it is an input contour with area strictly greater than the minimum, so every dropped one has area ≤ minimum |
| `Detection.KeptAppend` | ObjCount.py:208-211 | the filter distributes over concatenation, so kept contours keep their input order |
| `Detection.KeptLength` | ObjCount.py:206-212 | the filter never yields more contours than it was given |
| `Detection.KeptNested` | ObjCount.py:210 | filtering at a higher minimum equals filtering the lower minimum's survivors again |
| `Detection.CountMonotone` | ObjCount.py:210 | with the contours fixed, raising the minimum area never increases the count |
| `Detection.NothingAboveLargest` | ObjCount.py:210 | a minimum at least the largest area gives count 0 |
| `Detection.EverythingBelowSmallest` | ObjCount.py:210 | a minimum below every area keeps every contour |
| `Detection.Fps` | ObjCount.py:214-215 | the rate is never negative; it is 0 when the time is not positive, and otherwise positive with rate × time = 1 |
| `Detection.Above` | ObjCount.py:210 | the filter's strict comparison `area > min_area`; stated by `KeptMembership` |
| `Detection.Kept` | ObjCount.py:206-212 | reference definition of the filter loop; its properties are stated by `KeptMembership`, `KeptAppend`, `KeptLength`, `KeptNested` and `CountMonotone` |
| `Detection.Detect` | ObjCount.py:189-217 | one run of the detection step on a frame; stated by `DetectSound` and `ThresholdIgnored` |
| `Detection.ThresholdIgnored` | ObjCount.py:189-217 | the detection result is the same whatever the threshold value |
| `Detection.DetectSound` | ObjCount.py:189-217 | the count equals the number of kept contours, those are exactly the extracted contours above the minimum, and the rate is non-negative |
| `SessionState.Initial` | ObjCount.py:17-128 | the state after construction and `setup_ui`; stated by `InitialConsistent` |
| `SessionState.Consistent` | ObjCount.py:246-273 | the session invariant: odd blur size within 1..15, streaming iff an open device is held, upload enabled iff idle, save disabled while streaming, button label by mode, readouts equal the settings; kept by every handler (`SlidersKeepConsistent`, `ImageProcessedKeepsConsistent`, `ToggleKeepsConsistent`, `RunLoopKeepsConsistent`) |
| `SessionState.WithMinArea` | ObjCount.py:175-177 | the minimum-area callback; stated by `SlidersKeepConsistent` |
| `SessionState.WithThreshold` | ObjCount.py:179-181 | the threshold callback; stated by `ThresholdUpdateInvisible` and `SlidersKeepConsistent` |
| `SessionState.WithBlurSize` | ObjCount.py:183-187 | the blur-size callback; stated by `BlurSizeUpdate` and `SlidersKeepConsistent` |
| `SessionState.ShowDetection` | ObjCount.py:225-236 | the per-frame display of a detection, shared by the image path and the webcam loop; stated by `ImageProcessedCases` and `RunLoopShowsLastFrame` |
| `SessionState.ImageProcessed` | ObjCount.py:219-236 | processing a still image; stated by `ImageProcessedCases` and `ImageProcessedKeepsConsistent` |
| `SessionState.Uploaded` | ObjCount.py:238-244 | uploading; stated by `UploadedCases` |
| `SessionState.Started` | ObjCount.py:252-261 | starting the webcam; stated by `StartFailure` and `StartSuccess` |
| `SessionState.Stopped` | ObjCount.py:266-273 | stopping the webcam; stated by `StopProperties` |
| `SessionState.Toggled` | ObjCount.py:246-250 | the toggle's dispatch on `running`; stated by `ToggleKeepsConsistent` and `StartThenStop` |
| `SessionState.LoopStep` | ObjCount.py:277-291 | one pass of the worker loop body; stated by `App.ObjectCounterApp.WebcamLoopStep` (a failed read changes nothing), `RunLoopKeepsMode` and `RunLoopShowsLastFrame` |
| `SessionState.RunLoop` | ObjCount.py:275-293 | the worker loop over a finite feed of reads; stated by `RunLoopKeepsMode`, `RunLoopKeepsConsistent`, `RunLoopShowsLastFrame` and `RunLoopStopsAtFailure` |
| `SessionState.SaveRequest` | ObjCount.py:323-330 | a frame is written iff a last result exists and the dialog gave a path, and the frame written is the last result |
| `SessionState.InitialConsistent` | ObjCount.py:17-128 | the new window is idle with no device, upload enabled, save disabled and no result, and satisfies the invariant |
| `SessionState.BlurSizeUpdate` | ObjCount.py:183-187 | after the blur callback the size is odd, equals v for odd v and v+1 for even v, and its readout shows it; every other parameter, every other readout and every other field is unchanged |
| `SessionState.ThresholdUpdateInvisible` | ObjCount.py:179-181 | the threshold callback changes only the threshold and its readout (the other parameters, the other two readouts and every other field are unchanged), and a later detection shows the same thing as without it |
| `SessionState.SlidersKeepConsistent` | ObjCount.py:175-187 | the minimum-area and threshold callbacks keep the session invariant for every value, and the blur callback for blur values in 1..15 |
| `SessionState.ImageProcessedCases` | ObjCount.py:219-236 | a failed load changes nothing, the last result and count included; a successful one shows the count and annotated frame of the detection and enables saving |
| `SessionState.UploadedCases` | ObjCount.py:238-244 | a cancelled dialog leaves the session unchanged, a chosen path processes the image, and the invariant is kept |
| `SessionState.ImageProcessedKeepsConsistent` | ObjCount.py:219-236 | processing an image while upload is enabled keeps the invariant |
| `SessionState.StartFailure` | ObjCount.py:253-256 | a device that fails to open leaves the mode, the buttons, the count and the last result unchanged |
| `SessionState.StartSuccess` | ObjCount.py:258-261 | an opened device makes the session stream with the device held, upload and save disabled and the button reading "Stop Webcam" |
| `SessionState.StopProperties` | ObjCount.py:266-273 | stopping ends idle with any device released and upload and save enabled, keeps the last result, and is idempotent |
| `SessionState.ToggleKeepsConsistent` | ObjCount.py:246-250 | the toggle keeps the invariant; from idle it streams exactly when the device opens; while streaming it stops |
| `SessionState.StartThenStop` | ObjCount.py:246-273 | a successful start followed by a toggle returns to idle with the device released and both buttons enabled |
| `SessionState.SaveEnabledWithoutResult` | ObjCount.py:323-324 | start-then-stop reaches a consistent state with save enabled but no result, where saving writes nothing |
| `SessionState.RunLoopKeepsMode` | ObjCount.py:275-293 | the worker loop changes neither the mode, the device, the buttons nor the parameters, even when it exits on a failed read |
| `SessionState.RunLoopKeepsConsistent` | ObjCount.py:275-293 | the worker loop keeps the invariant |
| `SessionState.RunLoopShowsLastFrame` | ObjCount.py:281-291 | when all reads succeed, the loop changes only the readouts and the last result, and ends showing the count, rate and annotated frame of the last frame |
| `SessionState.RunLoopStopsAtFailure` | ObjCount.py:276-279 | a failed read after any number of good frames ends the loop: the state equals the one the good frames alone produce, whatever reads follow |
| `SessionState.FirstReadFails` | ObjCount.py:277-279 | a failed first read leaves the session exactly as it was |
| `App.ObjectCounterApp.constructor` | ObjCount.py:16-25 | the new object is valid and in the initial state |
| `App.ObjectCounterApp.UpdateMinArea` | ObjCount.py:175-177 | stores the minimum area and its readout; the invariant holds |
| `App.ObjectCounterApp.UpdateThreshold` | ObjCount.py:179-181 | stores the threshold and its readout; the invariant holds |
| `App.ObjectCounterApp.UpdateBlurSize` | ObjCount.py:183-187 | for a slider value in 1..15, stores an odd size in 1..15 equal to the value or the value plus one, with its readout; the invariant holds |
| `App.ObjectCounterApp.CountObjectsInFrame` | ObjCount.py:189-217 | the loop's list is the reference filter of the extracted contours, and the count is its length. A contour is in it iff its area exceeds the minimum. The rate is the guarded inverse of the time |
| `App.ObjectCounterApp.ShowFrame` | ObjCount.py:281-291 | resizes, detects and sets the count, rate and last annotated frame as the detection transition says, keeping the invariant |
| `App.ObjectCounterApp.ProcessImage` | ObjCount.py:219-236 | takes the session to the image transition: unchanged on a failed load, detection shown and save enabled otherwise |
| `App.ObjectCounterApp.UploadImage` | ObjCount.py:238-244 | a cancelled dialog does nothing, otherwise the image is processed |
| `App.ObjectCounterApp.ToggleWebcam` | ObjCount.py:246-250 | dispatches on `running` to start or stop, keeping the invariant |
| `App.ObjectCounterApp.StartWebcam` | ObjCount.py:252-264 | replaces the capture object; only an opened device switches to streaming and flips the buttons |
| `App.ObjectCounterApp.StopWebcam` | ObjCount.py:266-273 | clears `running`, releases the device if present, re-enables upload and save and shows "Webcam stopped" |
| `App.ObjectCounterApp.WebcamLoopStep` | ObjCount.py:277-291 | a failed read ends the loop with nothing changed; a frame shows its detection and the loop goes on |
| `App.ObjectCounterApp.WebcamLoop` | ObjCount.py:275-293 | runs the loop body while streaming and reads remain, ending in the state of the loop transition |
| `App.ObjectCounterApp.SaveResult` | ObjCount.py:323-331 | hands the last result to the writer iff one exists and the dialog gave a path |
| `App.ObjectCounterApp.OnClosing` | ObjCount.py:333-335 | closing the window performs a stop |

## Left out

- Image-library operations are not modelled: colour conversion, Gaussian blur, adaptive threshold, contour extraction and contour area. So are resizing, bounding boxes, rectangle drawing, image reading and writing. They are foreign calls whose behaviour is not visible; the model takes their results as functions or parameters.
- Widget layout, slider creation, file dialogs and message boxes are not modelled; only the button flags, labels and readouts they set are kept. The error message boxes shown on a failed load or a failed device open have no state effect and are omitted.
- Displaying a frame (`update_display`, aspect-ratio fitting with float division and resampling) is rendering and floating-point work, and is not modelled.
- The worker thread, the unlocked sharing of `running` and `last_result` and `time.sleep` are not modelled. The loop body is one sequential step, and the loop runs over a finite sequence of reads that stands for what the device yields before the stop flag is seen. Interleavings with the window thread are not captured.
- Wall-clock reads are not modelled; the processing time is a parameter.
- Areas, times and rates are exact reals, not IEEE floats: rounding and the overflow of `1.0 / t` for tiny `t` are not captured. The one-decimal formatting of the rate readout is not modelled either.
- The `float()` parse of the slider's string value is not modelled; `Truncate` starts from the parsed number.
- Closing the window after the stop (`root.destroy`) is not modelled.
- App.ObjectCounterApp.StartWebcam: requires the session to be idle. Its only caller, the toggle, guarantees this. A direct call while streaming is not modelled.
- App.ObjectCounterApp.ProcessImage: requires the upload button to be enabled, which is the only way the window reaches it. Processing an image while streaming is therefore not modelled.
- App.ObjectCounterApp.UpdateBlurSize: requires a value in 1..15, the range of the blur slider that is its only caller (ObjCount.py:76-81, 158). A value outside that range is not modelled.
