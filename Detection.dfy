// The detection step: contours whose area exceeds the minimum are kept and
// counted, and the frame rate is the inverse of the processing time.
// The image operations that produce the contours (grey conversion, Gaussian
// blur, adaptive threshold, external-contour extraction, contour area) and
// the ones that resize and annotate a frame are foreign library calls; they
// enter the model as the total functions of a `Vision` record.
module Detection {

  datatype Pixel = Pixel(b: bv8, g: bv8, r: bv8)

  /** A colour frame: rows of BGR samples. */
  datatype Frame = Frame(rows: seq<seq<Pixel>>)

  datatype Point = Point(x: int, y: int)

  /** An outer contour and the area the library computes for it. */
  datatype Contour = Contour(points: seq<Point>, area: real)

  /** The library calls the session relies on.
      `findContours` is the whole grey/blur/threshold/contour chain: it is given
      the frame and the blur kernel size, and nothing else. */
  datatype Vision = Vision(
    resize: Frame -> Frame,
    findContours: (Frame, int) -> seq<Contour>,
    drawBoxes: (Frame, seq<Contour>) -> Frame)

  /** The three tunables of the session. */
  datatype DetectionParams = DetectionParams(minArea: int, thresholdValue: int, blurSize: int)

  datatype DetectionResult = DetectionResult(count: nat, good: seq<Contour>, fps: real)

  predicate Above(c: Contour, minArea: int)
  {
    c.area > minArea as real
  }

  /** The contours the area filter keeps, in input order. Defined on the last
      element so that it follows the source loop one contour at a time. */
  function Kept(cs: seq<Contour>, minArea: int): seq<Contour>
  {
    if cs == [] then []
    else Kept(cs[..|cs| - 1], minArea) + (if Above(cs[|cs| - 1], minArea) then [cs[|cs| - 1]] else [])
  }

  /** A contour is kept exactly when it is one of the input contours and its
      area is strictly greater than the minimum; so every dropped contour has
      area at most the minimum. */
  lemma {:induction false} KeptMembership(cs: seq<Contour>, minArea: int, c: Contour)
    ensures c in Kept(cs, minArea) <==> c in cs && Above(c, minArea)
  {
    if cs != [] {
      var init := cs[..|cs| - 1];
      assert cs == init + [cs[|cs| - 1]];
      KeptMembership(init, minArea, c);
    }
  }

  /** The filter works element by element over a concatenation, so kept
      contours keep their relative order. */
  lemma {:induction false} KeptAppend(a: seq<Contour>, b: seq<Contour>, minArea: int)
    ensures Kept(a + b, minArea) == Kept(a, minArea) + Kept(b, minArea)
    decreases |b|
  {
    if b == [] {
      assert a + b == a;
    } else {
      var b' := b[..|b| - 1];
      assert (a + b)[..|a + b| - 1] == a + b';
      assert (a + b)[|a + b| - 1] == b[|b| - 1];
      KeptAppend(a, b', minArea);
    }
  }

  /** Kept is never longer than its input. */
  lemma {:induction false} KeptLength(cs: seq<Contour>, minArea: int)
    ensures |Kept(cs, minArea)| <= |cs|
  {
    if cs != [] {
      KeptLength(cs[..|cs| - 1], minArea);
    }
  }

  /** Raising the minimum area filters the already kept contours further. */
  lemma {:induction false} KeptNested(cs: seq<Contour>, low: int, high: int)
    requires low <= high
    ensures Kept(cs, high) == Kept(Kept(cs, low), high)
  {
    if cs != [] {
      var init := cs[..|cs| - 1];
      var last := cs[|cs| - 1];
      KeptNested(init, low, high);
      KeptAppend(Kept(init, low), if Above(last, low) then [last] else [], high);
      var single: seq<Contour> := [last];
      assert single[..0] == [];
      assert Kept(single, high) == if Above(last, high) then [last] else [];
    }
  }

  /** With the contours held fixed, raising the minimum area never increases the count. */
  lemma {:induction false} CountMonotone(cs: seq<Contour>, low: int, high: int)
    requires low <= high
    ensures |Kept(cs, high)| <= |Kept(cs, low)|
  {
    KeptNested(cs, low, high);
    KeptLength(Kept(cs, low), high);
  }

  /** A minimum at least as large as every area leaves nothing. */
  lemma {:induction false} NothingAboveLargest(cs: seq<Contour>, minArea: int)
    requires forall i :: 0 <= i < |cs| ==> cs[i].area <= minArea as real
    ensures Kept(cs, minArea) == []
  {
    if Kept(cs, minArea) != [] {
      var c := Kept(cs, minArea)[0];
      KeptMembership(cs, minArea, c);
    }
  }

  /** A minimum below every area keeps every contour. */
  lemma {:induction false} EverythingBelowSmallest(cs: seq<Contour>, minArea: int)
    requires forall i :: 0 <= i < |cs| ==> cs[i].area > minArea as real
    ensures Kept(cs, minArea) == cs
  {
    if cs != [] {
      EverythingBelowSmallest(cs[..|cs| - 1], minArea);
    }
  }

  /** The frame rate readout: the inverse of the processing time, or 0 when the
      measured time is not positive (so no division by zero happens). */
  function Fps(processingTime: real): (r: real)
    ensures r >= 0.0
    ensures processingTime <= 0.0 ==> r == 0.0
    ensures processingTime > 0.0 ==> r > 0.0 && r * processingTime == 1.0
  {
    if processingTime > 0.0 then 1.0 / processingTime else 0.0
  }

  /** What one run of the detection step on a (resized) frame yields. */
  function Detect(v: Vision, frame: Frame, p: DetectionParams, processingTime: real): DetectionResult
  {
    var good := Kept(v.findContours(frame, p.blurSize), p.minArea);
    DetectionResult(|good|, good, Fps(processingTime))
  }

  /** The threshold tunable takes no part in detection. */
  lemma ThresholdIgnored(v: Vision, frame: Frame, p: DetectionParams, processingTime: real, threshold: int)
    ensures Detect(v, frame, p.(thresholdValue := threshold), processingTime) == Detect(v, frame, p, processingTime)
  {
  }

  /** Count and the kept contours of a detection agree, and the kept contours
      are exactly the extracted ones above the minimum area. */
  lemma DetectSound(v: Vision, frame: Frame, p: DetectionParams, processingTime: real)
    ensures Detect(v, frame, p, processingTime).count == |Detect(v, frame, p, processingTime).good|
    ensures forall c :: c in Detect(v, frame, p, processingTime).good <==>
                        c in v.findContours(frame, p.blurSize) && Above(c, p.minArea)
    ensures Detect(v, frame, p, processingTime).fps >= 0.0
  {
    forall c {
      KeptMembership(v.findContours(frame, p.blurSize), p.minArea, c);
    }
  }
}
