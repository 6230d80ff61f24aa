// The state of one object-counter window as a value, and the transitions its
// event handlers perform on it: the three slider callbacks, loading an image,
// toggling the webcam (start and stop) and one pass of the webcam worker loop.
// The class in App.dfy updates its fields step by step and is proved to move
// between exactly these values.
module SessionState {
  import opened Sliders
  import opened Detection

  datatype Option<T> = None | Some(value: T)

  /** The capture device: none created yet, or a capture object that is either
      held open or not (it failed to open, or it has been released). */
  datatype Capture = NoCapture | Handle(held: bool)

  /** Text of the count readout. */
  datatype CountText = ObjectsDetected(n: nat) | WebcamStopped

  /** Text of the frame-rate readout: "FPS: -" until the first detection. */
  datatype FpsText = NoFps | FpsShown(fps: real)

  /** What one read from the capture device gives: a failure, or a frame
      together with the time the detection step took on it. */
  datatype Read = Failed | Grabbed(frame: Frame, processingTime: real)

  const StartLabel: string := "Start Webcam"
  const StopLabel: string := "Stop Webcam"

  datatype Session = Session(
    running: bool,
    cap: Capture,
    uploadEnabled: bool,
    saveEnabled: bool,
    webcamLabel: string,
    countText: CountText,
    fpsText: FpsText,
    lastResult: Option<Frame>,
    params: DetectionParams,
    /** the numbers shown beside the three sliders */
    readouts: DetectionParams)

  /** The window as it is built: idle, no device, upload on, save off. */
  function Initial(): Session
  {
    var p := DetectionParams(500, 180, 5);
    Session(false, NoCapture, true, false, StartLabel, ObjectsDetected(0), NoFps, None, p, p)
  }

  /** What every reachable state satisfies: the kernel size is odd and inside
      the blur slider's range, the session streams exactly when it holds an open
      device, the buttons match the mode, and the slider readouts show the
      stored parameters. */
  predicate Consistent(s: Session)
  {
    s.params.blurSize % 2 == 1 && BlurFrom <= s.params.blurSize <= BlurTo &&
    (s.running <==> s.cap == Handle(true)) &&
    s.uploadEnabled == !s.running &&
    (s.running ==> !s.saveEnabled) &&
    s.webcamLabel == (if s.running then StopLabel else StartLabel) &&
    s.readouts == s.params
  }

  // ----- slider callbacks -----

  function WithMinArea(s: Session, value: int): Session
  {
    s.(params := s.params.(minArea := value), readouts := s.readouts.(minArea := value))
  }

  function WithThreshold(s: Session, value: int): Session
  {
    s.(params := s.params.(thresholdValue := value), readouts := s.readouts.(thresholdValue := value))
  }

  function WithBlurSize(s: Session, value: int): Session
  {
    var b := CoerceOdd(value);
    s.(params := s.params.(blurSize := b), readouts := s.readouts.(blurSize := b))
  }

  // ----- detection on one frame -----

  /** Shows a detection on a frame: the count and rate readouts and the kept
      annotated frame. The frame is first resized to the working resolution. */
  function ShowDetection(s: Session, v: Vision, frame: Frame, processingTime: real): Session
  {
    var resized := v.resize(frame);
    var d := Detect(v, resized, s.params, processingTime);
    s.(countText := ObjectsDetected(d.count),
       fpsText := FpsShown(d.fps),
       lastResult := Some(v.drawBoxes(resized, d.good)))
  }

  /** Processing a still image: a failed load changes nothing; otherwise the
      detection is shown and saving is enabled. */
  function ImageProcessed(s: Session, v: Vision, loaded: Option<Frame>, processingTime: real): Session
  {
    match loaded
    case None => s
    case Some(frame) => ShowDetection(s, v, frame, processingTime).(saveEnabled := true)
  }

  /** Uploading: a cancelled file dialog (empty path) does nothing. */
  function Uploaded(s: Session, v: Vision, path: string, loaded: Option<Frame>, processingTime: real): Session
  {
    if path == [] then s else ImageProcessed(s, v, loaded, processingTime)
  }

  // ----- webcam -----

  /** Starting the webcam: the new capture object replaces the old one whether
      or not it opened; only an open device switches the session to streaming. */
  function Started(s: Session, deviceOpens: bool): Session
  {
    if !deviceOpens then s.(cap := Handle(false))
    else s.(running := true, cap := Handle(true), webcamLabel := StopLabel,
            uploadEnabled := false, saveEnabled := false)
  }

  /** Stopping the webcam: clear the flag, release any capture object, restore
      the buttons and show "Webcam stopped". */
  function Stopped(s: Session): Session
  {
    s.(running := false,
       cap := if s.cap == NoCapture then NoCapture else Handle(false),
       webcamLabel := StartLabel,
       uploadEnabled := true,
       saveEnabled := true,
       countText := WebcamStopped)
  }

  function Toggled(s: Session, deviceOpens: bool): Session
  {
    if !s.running then Started(s, deviceOpens) else Stopped(s)
  }

  /** One pass of the worker loop body after its `running` check: a failed read
      leaves the state alone (the loop then exits), a frame is shown. */
  function LoopStep(s: Session, v: Vision, r: Read): Session
  {
    match r
    case Failed => s
    case Grabbed(frame, t) => ShowDetection(s, v, frame, t)
  }

  /** The worker loop over the reads the device yields until the stop flag is
      observed: it runs while `running` holds and exits at the first failed read. */
  function RunLoop(s: Session, v: Vision, feed: seq<Read>): Session
    decreases |feed|
  {
    if !s.running || feed == [] || feed[0].Failed? then s
    else RunLoop(LoopStep(s, v, feed[0]), v, feed[1..])
  }

  /** The file that saving would write: the last result, and only when there is
      one and the save dialog returned a path. */
  function SaveRequest(s: Session, path: string): (w: Option<Frame>)
    ensures w.Some? <==> s.lastResult.Some? && path != []
    ensures w.Some? ==> w == s.lastResult
  {
    if s.lastResult.Some? && path != [] then s.lastResult else None
  }

  // ----- properties -----

  lemma InitialConsistent()
    ensures Consistent(Initial())
    ensures !Initial().running && Initial().cap == NoCapture
    ensures Initial().uploadEnabled && !Initial().saveEnabled && Initial().lastResult == None
  {
  }

  /** The blur callback stores v or v + 1, whichever is odd, and nothing else
      changes but that parameter and its readout. */
  lemma BlurSizeUpdate(s: Session, value: int)
    ensures WithBlurSize(s, value).params.blurSize % 2 == 1
    ensures value % 2 == 1 ==> WithBlurSize(s, value).params.blurSize == value
    ensures value % 2 == 0 ==> WithBlurSize(s, value).params.blurSize == value + 1
    ensures WithBlurSize(s, value).readouts.blurSize == WithBlurSize(s, value).params.blurSize
    ensures WithBlurSize(s, value).params.(blurSize := 0) == s.params.(blurSize := 0)
    ensures WithBlurSize(s, value).readouts.(blurSize := 0) == s.readouts.(blurSize := 0)
    ensures WithBlurSize(s, value).(params := s.params, readouts := s.readouts) == s
  {
  }

  /** Changing the threshold changes only the threshold and its readout, and no
      later detection can tell. */
  lemma ThresholdUpdateInvisible(s: Session, value: int, v: Vision, frame: Frame, t: real)
    ensures WithThreshold(s, value).(params := s.params, readouts := s.readouts) == s
    ensures WithThreshold(s, value).params.minArea == s.params.minArea
    ensures WithThreshold(s, value).params.blurSize == s.params.blurSize
    ensures WithThreshold(s, value).readouts.(thresholdValue := 0) == s.readouts.(thresholdValue := 0)
    ensures ShowDetection(WithThreshold(s, value), v, frame, t).(params := s.params, readouts := s.readouts)
            == ShowDetection(s, v, frame, t)
  {
    ThresholdIgnored(v, v.resize(frame), s.params, t, value);
  }

  lemma SlidersKeepConsistent(s: Session, value: int)
    requires Consistent(s)
    ensures Consistent(WithMinArea(s, value))
    ensures Consistent(WithThreshold(s, value))
    ensures BlurFrom <= value <= BlurTo ==> Consistent(WithBlurSize(s, value))
  {
  }

  /** A failed load leaves everything, the last result and the count included,
      as it was; a successful one shows the detection and enables saving. */
  lemma ImageProcessedCases(s: Session, v: Vision, loaded: Option<Frame>, t: real)
    ensures loaded.None? ==> ImageProcessed(s, v, loaded, t) == s
    ensures loaded.Some? ==>
      var r := ImageProcessed(s, v, loaded, t);
      var d := Detect(v, v.resize(loaded.value), s.params, t);
      r.saveEnabled && r.lastResult == Some(v.drawBoxes(v.resize(loaded.value), d.good)) &&
      r.countText == ObjectsDetected(|d.good|) && r.running == s.running && r.cap == s.cap
  {
  }

  lemma ImageProcessedKeepsConsistent(s: Session, v: Vision, loaded: Option<Frame>, t: real)
    requires Consistent(s) && s.uploadEnabled
    ensures Consistent(ImageProcessed(s, v, loaded, t))
  {
  }

  /** A cancelled file dialog leaves the session as it was; a chosen path
      processes the image, keeping the invariant. */
  lemma UploadedCases(s: Session, v: Vision, path: string, loaded: Option<Frame>, t: real)
    requires Consistent(s) && s.uploadEnabled
    ensures path == [] ==> Uploaded(s, v, path, loaded, t) == s
    ensures path != [] ==> Uploaded(s, v, path, loaded, t) == ImageProcessed(s, v, loaded, t)
    ensures Consistent(Uploaded(s, v, path, loaded, t))
  {
    ImageProcessedKeepsConsistent(s, v, loaded, t);
  }

  /** A start whose device fails to open changes neither the mode nor a button. */
  lemma StartFailure(s: Session)
    ensures var r := Started(s, false);
      r.running == s.running && r.uploadEnabled == s.uploadEnabled &&
      r.saveEnabled == s.saveEnabled && r.webcamLabel == s.webcamLabel &&
      r.countText == s.countText && r.lastResult == s.lastResult && r.cap == Handle(false)
  {
  }

  /** A start whose device opens streams with upload and save disabled and the
      button relabelled. */
  lemma StartSuccess(s: Session)
    ensures var r := Started(s, true);
      r.running && r.cap == Handle(true) && !r.uploadEnabled && !r.saveEnabled &&
      r.webcamLabel == StopLabel && r.lastResult == s.lastResult
  {
  }

  /** Stopping always ends idle with any device released and upload and save
      enabled; stopping twice is stopping once. */
  lemma StopProperties(s: Session)
    ensures var r := Stopped(s);
      !r.running && r.cap != Handle(true) && (s.cap != NoCapture ==> r.cap == Handle(false)) &&
      r.uploadEnabled && r.saveEnabled && r.webcamLabel == StartLabel &&
      r.lastResult == s.lastResult && r.params == s.params
    ensures Stopped(Stopped(s)) == Stopped(s)
  {
  }

  lemma ToggleKeepsConsistent(s: Session, deviceOpens: bool)
    requires Consistent(s)
    ensures Consistent(Toggled(s, deviceOpens))
    ensures !s.running ==> Toggled(s, deviceOpens).running == deviceOpens
    ensures s.running ==> Toggled(s, deviceOpens) == Stopped(s)
  {
  }

  /** From idle, a successful start followed by a stop gives back an idle
      session with the device released and both buttons enabled. */
  lemma StartThenStop(s: Session)
    requires Consistent(s) && !s.running
    ensures var r := Toggled(Toggled(s, true), false);
      Consistent(r) && !r.running && r.cap == Handle(false) && r.uploadEnabled && r.saveEnabled &&
      r.lastResult == s.lastResult
  {
  }

  /** Save can be enabled while there is no result to save (start, then stop
      before any frame arrives), which is why saving checks for a result. */
  lemma SaveEnabledWithoutResult()
    ensures var s := Toggled(Toggled(Initial(), true), false);
      Consistent(s) && s.saveEnabled && s.lastResult == None && SaveRequest(s, "out.png") == None
  {
  }

  /** The worker loop never changes the mode, the device, the buttons or the
      parameters: in particular a failed read leaves the session streaming with
      the device held (only a stop releases it). */
  lemma {:induction false} RunLoopKeepsMode(s: Session, v: Vision, feed: seq<Read>)
    ensures var r := RunLoop(s, v, feed);
      r.running == s.running && r.cap == s.cap && r.uploadEnabled == s.uploadEnabled &&
      r.saveEnabled == s.saveEnabled && r.webcamLabel == s.webcamLabel &&
      r.params == s.params && r.readouts == s.readouts
    decreases |feed|
  {
    if s.running && feed != [] && !feed[0].Failed? {
      RunLoopKeepsMode(LoopStep(s, v, feed[0]), v, feed[1..]);
    }
  }

  lemma RunLoopKeepsConsistent(s: Session, v: Vision, feed: seq<Read>)
    requires Consistent(s)
    ensures Consistent(RunLoop(s, v, feed))
  {
    RunLoopKeepsMode(s, v, feed);
  }

  /** When every read succeeds, the loop ends showing the detection on the last
      frame: its count and its annotated frame. */
  lemma {:induction false} RunLoopShowsLastFrame(s: Session, v: Vision, feed: seq<Read>)
    requires s.running && feed != []
    requires forall k :: 0 <= k < |feed| ==> feed[k].Grabbed?
    ensures RunLoop(s, v, feed).(countText := s.countText, fpsText := s.fpsText, lastResult := s.lastResult) == s
    ensures var last := feed[|feed| - 1];
      var d := Detect(v, v.resize(last.frame), s.params, last.processingTime);
      RunLoop(s, v, feed).countText == ObjectsDetected(d.count) &&
      RunLoop(s, v, feed).fpsText == FpsShown(d.fps) &&
      RunLoop(s, v, feed).lastResult == Some(v.drawBoxes(v.resize(last.frame), d.good))
    decreases |feed|
  {
    var next := LoopStep(s, v, feed[0]);
    if |feed| > 1 {
      RunLoopShowsLastFrame(next, v, feed[1..]);
      assert feed[1..][|feed[1..]| - 1] == feed[|feed| - 1];
    }
  }

  /** A read failure before any frame leaves the session exactly as it was. */
  lemma FirstReadFails(s: Session, v: Vision, feed: seq<Read>)
    requires feed != [] && feed[0].Failed?
    ensures RunLoop(s, v, feed) == s
  {
  }

  /** A failed read after any number of good frames ends the loop: the reads
      after it are ignored, and the session is left as the good frames made it
      (still streaming, showing the last good frame). */
  lemma {:induction false} RunLoopStopsAtFailure(s: Session, v: Vision, p: seq<Read>, q: seq<Read>)
    requires forall k :: 0 <= k < |p| ==> p[k].Grabbed?
    ensures RunLoop(s, v, p + [Failed] + q) == RunLoop(s, v, p)
    decreases |p|
  {
    if p == [] {
      assert (p + [Failed] + q)[0] == Failed;
    } else if s.running {
      assert (p + [Failed] + q)[1..] == p[1..] + [Failed] + q;
      RunLoopStopsAtFailure(LoopStep(s, v, p[0]), v, p[1..], q);
    }
  }
}
