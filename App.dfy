// The object-counter window as an object whose event handlers update its
// fields in place. Every method that changes the object is proved to keep
// `Valid()` and to move it from the value `State()` had to the value the
// matching transition of SessionState gives. The detection step and saving
// change nothing and are specified by what they return. Widget calls become
// the fields they set: the enabled flags of the upload and save buttons, the
// webcam button's label and the two readouts. Library results (a loaded
// image, a device that opens or not, a frame read, the measured processing
// time) are parameters.
module App {
  import opened Sliders
  import opened Detection
  import opened SessionState

  class ObjectCounterApp {
    var running: bool
    var cap: Capture
    var minArea: int
    var thresholdValue: int
    var blurSize: int

    var uploadEnabled: bool
    var saveEnabled: bool
    var webcamLabel: string
    var countText: CountText
    var fpsText: FpsText
    var minAreaReadout: int
    var thresholdReadout: int
    var blurReadout: int

    /** Absent until the first detection is shown (the source tests it with hasattr). */
    var lastResult: Option<Frame>

    function Params(): DetectionParams
      reads this
    {
      DetectionParams(minArea, thresholdValue, blurSize)
    }

    function State(): Session
      reads this
    {
      Session(running, cap, uploadEnabled, saveEnabled, webcamLabel, countText, fpsText, lastResult,
              Params(), DetectionParams(minAreaReadout, thresholdReadout, blurReadout))
    }

    predicate Valid()
      reads this
    {
      Consistent(State())
    }

    constructor ()
      ensures Valid() && State() == Initial()
    {
      cap := NoCapture;
      running := false;
      minArea := 500;
      thresholdValue := 180;
      blurSize := 5;
      minAreaReadout, thresholdReadout, blurReadout := 500, 180, 5;
      uploadEnabled := true;
      webcamLabel := StartLabel;
      saveEnabled := false;
      countText := ObjectsDetected(0);
      fpsText := NoFps;
      lastResult := None;
    }

    method UpdateMinArea(value: int)
      requires Valid()
      modifies this
      ensures Valid() && State() == WithMinArea(old(State()), value)
    {
      minArea := value;
      minAreaReadout := value;
    }

    method UpdateThreshold(value: int)
      requires Valid()
      modifies this
      ensures Valid() && State() == WithThreshold(old(State()), value)
    {
      thresholdValue := value;
      thresholdReadout := value;
    }

    /** `value` is the truncated position of the blur slider, so it lies in the slider's range. */
    method UpdateBlurSize(value: int)
      requires Valid() && BlurFrom <= value <= BlurTo
      modifies this
      ensures Valid() && State() == WithBlurSize(old(State()), value)
      ensures blurSize % 2 == 1 && (blurSize == value || blurSize == value + 1)
    {
      var b := CoerceOdd(value);
      blurSize := b;
      blurReadout := b;
    }

    /** The detection step on an already resized frame: extract the contours,
        keep and count those above the minimum area, and derive the frame rate. */
    method CountObjectsInFrame(v: Vision, frame: Frame, processingTime: real)
      returns (count: nat, good: seq<Contour>, fps: real)
      ensures good == Kept(v.findContours(frame, blurSize), minArea)
      ensures count == |good|
      ensures forall c :: c in good <==> c in v.findContours(frame, blurSize) && Above(c, minArea)
      ensures fps >= 0.0 && (processingTime > 0.0 ==> fps * processingTime == 1.0)
      ensures processingTime <= 0.0 ==> fps == 0.0
    {
      var contours := v.findContours(frame, blurSize);
      count := 0;
      good := [];
      var i := 0;
      while i < |contours|
        invariant 0 <= i <= |contours|
        invariant good == Kept(contours[..i], minArea)
        invariant count == |good|
      {
        var cnt := contours[i];
        assert contours[..i + 1][..i] == contours[..i];
        if Above(cnt, minArea) {
          good := good + [cnt];
          count := count + 1;
        }
        i := i + 1;
      }
      assert contours[..i] == contours;
      forall c {
        KeptMembership(contours, minArea, c);
      }
      fps := Fps(processingTime);
    }

    /** Detection shown on a frame: resize it, detect, and set the readouts and
        the last result. Shared by the image path and the webcam loop. */
    method ShowFrame(v: Vision, frame: Frame, processingTime: real)
      requires Valid()
      modifies this
      ensures Valid() && State() == ShowDetection(old(State()), v, frame, processingTime)
    {
      var resized := v.resize(frame);
      var count, contours, fps := CountObjectsInFrame(v, resized, processingTime);
      assert Detect(v, resized, Params(), processingTime) == DetectionResult(count, contours, fps);
      countText := ObjectsDetected(count);
      fpsText := FpsShown(fps);
      lastResult := Some(v.drawBoxes(resized, contours));
    }

    /** `loaded` is what reading the image file gave: None when it could not be read. */
    method ProcessImage(v: Vision, loaded: Option<Frame>, processingTime: real)
      requires Valid() && uploadEnabled
      modifies this
      ensures Valid() && State() == ImageProcessed(old(State()), v, loaded, processingTime)
    {
      if loaded.None? {
        return;
      }
      ShowFrame(v, loaded.value, processingTime);
      saveEnabled := true;
    }

    /** `path` is the file dialog's answer, empty when cancelled. */
    method UploadImage(v: Vision, path: string, loaded: Option<Frame>, processingTime: real)
      requires Valid() && uploadEnabled
      modifies this
      ensures Valid() && State() == Uploaded(old(State()), v, path, loaded, processingTime)
    {
      if path != [] {
        ProcessImage(v, loaded, processingTime);
      }
    }

    method ToggleWebcam(deviceOpens: bool)
      requires Valid()
      modifies this
      ensures Valid() && State() == Toggled(old(State()), deviceOpens)
    {
      if !running {
        StartWebcam(deviceOpens);
      } else {
        StopWebcam();
      }
    }

    /** Only reached from ToggleWebcam, which calls it when idle. */
    method StartWebcam(deviceOpens: bool)
      requires Valid() && !running
      modifies this
      ensures Valid() && State() == Started(old(State()), deviceOpens)
    {
      cap := Handle(deviceOpens);
      if !deviceOpens {
        return;
      }
      running := true;
      webcamLabel := StopLabel;
      uploadEnabled := false;
      saveEnabled := false;
    }

    method StopWebcam()
      requires Valid()
      modifies this
      ensures Valid() && State() == Stopped(old(State()))
    {
      running := false;
      if cap != NoCapture {
        cap := Handle(false);
      }
      webcamLabel := StartLabel;
      uploadEnabled := true;
      saveEnabled := true;
      countText := WebcamStopped;
    }

    /** The body of the worker loop once `running` has been checked: a failed
        read ends the loop (`continues` is false) and changes nothing. */
    method WebcamLoopStep(v: Vision, r: Read) returns (continues: bool)
      requires Valid() && running
      modifies this
      ensures Valid() && State() == LoopStep(old(State()), v, r)
      ensures continues == r.Grabbed?
    {
      if r.Failed? {
        return false;
      }
      ShowFrame(v, r.frame, r.processingTime);
      continues := true;
    }

    /** The worker loop over the reads the device yields before the stop flag
        is observed. */
    method WebcamLoop(v: Vision, feed: seq<Read>)
      requires Valid()
      modifies this
      ensures Valid() && State() == RunLoop(old(State()), v, feed)
    {
      var i := 0;
      while running && i < |feed|
        invariant 0 <= i <= |feed|
        invariant Valid()
        invariant RunLoop(State(), v, feed[i..]) == RunLoop(old(State()), v, feed)
        decreases |feed| - i
      {
        var continues := WebcamLoopStep(v, feed[i]);
        if !continues {
          return;
        }
        assert feed[i..][1..] == feed[i + 1..];
        i := i + 1;
      }
    }

    /** Saving: returns the frame handed to the image writer, if any. Nothing
        happens without a last result or when the dialog is cancelled. */
    method SaveResult(path: string) returns (written: Option<Frame>)
      ensures written == SaveRequest(State(), path)
    {
      written := None;
      if lastResult.Some? {
        if path != [] {
          written := lastResult;
        }
      }
    }

    /** Closing the window stops the webcam first. */
    method OnClosing()
      requires Valid()
      modifies this
      ensures Valid() && State() == Stopped(old(State()))
    {
      StopWebcam();
    }
  }
}
