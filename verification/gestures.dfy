/**
 * Synthetic gestures (`click`, `longClick`, `swipe`): each is a gesture of
 * one stroke that starts at time 0, over a one- or two-point path. The
 * platform's builders reject a stroke with a non-positive duration, a
 * negative start time or a path reaching negative coordinates, and a
 * gesture lasting longer than 60 000 ms; the source does not catch these
 * rejections, so such a call dispatches nothing.
 */
module Gestures {
  import opened Wrappers

  /** A screen coordinate; the source's Float coordinates are passed through untouched. */
  datatype Point = Point(x: int, y: int)

  /** `StrokeDescription(path, startTime, duration)`; times in milliseconds. */
  datatype Stroke = Stroke(path: seq<Point>, startTime: int, duration: int)

  /** `GestureDescription`: the strokes added to its builder, in order. */
  datatype Gesture = Gesture(strokes: seq<Stroke>)

  /** `GestureDescription.getMaxGestureDuration()`, in milliseconds. */
  const MaxGestureDuration := 60000

  const ClickDuration := 100
  const DefaultLongClickDuration := 500
  const DefaultSwipeDuration := 300

  /** A gesture of exactly one stroke whose path is not empty. */
  predicate SingleStroke(g: Gesture)
  {
    |g.strokes| == 1 && |g.strokes[0].path| >= 1
  }

  /** Where the pointer goes down. */
  function StartPoint(g: Gesture): Point
    requires SingleStroke(g)
  {
    g.strokes[0].path[0]
  }

  /** Where the pointer lifts. */
  function EndPoint(g: Gesture): Point
    requires SingleStroke(g)
  {
    var path := g.strokes[0].path;
    path[|path| - 1]
  }

  /** When the last stroke ends, counted from the gesture's start. */
  function TotalDuration(g: Gesture): (t: int)
    ensures forall i :: 0 <= i < |g.strokes| ==> g.strokes[i].startTime + g.strokes[i].duration <= t
    ensures |g.strokes| > 0 ==> exists i :: 0 <= i < |g.strokes| && t == g.strokes[i].startTime + g.strokes[i].duration
    decreases |g.strokes|
  {
    if |g.strokes| == 0 then 0
    else if |g.strokes| == 1 then g.strokes[0].startTime + g.strokes[0].duration
    else
      var rest := TotalDuration(Gesture(g.strokes[1..]));
      var first := g.strokes[0].startTime + g.strokes[0].duration;
      if first >= rest then first else rest
  }

  /** Why the platform refuses to build a gesture. */
  datatype GestureFault =
    | NonPositiveDuration   // StrokeDescription: duration <= 0
    | NegativeStartTime     // StrokeDescription: startTime < 0
    | NegativeBounds        // StrokeDescription: the path's bounds reach below 0
    | TooLong               // Builder.addStroke: the gesture would exceed the maximum duration

  /** Every point of the path lies at non-negative coordinates. */
  predicate NonNegativeBounds(path: seq<Point>)
  {
    forall i :: 0 <= i < |path| ==> path[i].x >= 0 && path[i].y >= 0
  }

  /**
   * `GestureDescription.Builder().addStroke(StrokeDescription(...)).build()`
   * for one stroke: the stroke's own checks first, then the duration limit.
   */
  function BuildSingle(s: Stroke): (r: Result<Gesture, GestureFault>)
    ensures r.Success? <==>
              s.duration > 0 && s.startTime >= 0 && NonNegativeBounds(s.path) &&
              s.startTime + s.duration <= MaxGestureDuration
    ensures r.Success? ==> r.value == Gesture([s])
    ensures s.duration <= 0 ==> r == Failure(NonPositiveDuration)
    ensures (s.duration > 0 && s.startTime >= 0 && NonNegativeBounds(s.path) &&
             s.startTime + s.duration > MaxGestureDuration) ==> r == Failure(TooLong)
  {
    if s.duration <= 0 then Failure(NonPositiveDuration)
    else if s.startTime < 0 then Failure(NegativeStartTime)
    else if !NonNegativeBounds(s.path) then Failure(NegativeBounds)
    else if TotalDuration(Gesture([s])) > MaxGestureDuration then Failure(TooLong)
    else Success(Gesture([s]))
  }

  /** `click(x, y)`: press and release at one point, 100 ms, starting at once. */
  function Click(x: int, y: int): (r: Result<Gesture, GestureFault>)
    ensures r.Success? <==> x >= 0 && y >= 0
    ensures r.Failure? ==> r.error == NegativeBounds
    ensures r.Success? ==>
              var g := r.value;
              && SingleStroke(g) && g.strokes[0].startTime == 0
              && |g.strokes[0].path| == 1 && StartPoint(g) == EndPoint(g) == Point(x, y)
              && TotalDuration(g) == ClickDuration
  {
    var path := [Point(x, y)];
    assert NonNegativeBounds(path) <==> x >= 0 && y >= 0 by { assert path[0] == Point(x, y); }
    BuildSingle(Stroke(path, 0, ClickDuration))
  }

  /** `longClick(x, y, duration = 500)`: hold one point for `duration` ms. */
  function LongClick(x: int, y: int, duration: int := DefaultLongClickDuration): (r: Result<Gesture, GestureFault>)
    ensures r.Success? <==> x >= 0 && y >= 0 && 0 < duration <= MaxGestureDuration
    ensures duration <= 0 ==> r == Failure(NonPositiveDuration)
    ensures x >= 0 && y >= 0 && duration > MaxGestureDuration ==> r == Failure(TooLong)
    ensures r.Success? ==>
              var g := r.value;
              && SingleStroke(g) && g.strokes[0].startTime == 0
              && |g.strokes[0].path| == 1 && StartPoint(g) == EndPoint(g) == Point(x, y)
              && TotalDuration(g) == duration
  {
    var path := [Point(x, y)];
    assert NonNegativeBounds(path) <==> x >= 0 && y >= 0 by { assert path[0] == Point(x, y); }
    BuildSingle(Stroke(path, 0, duration))
  }

  /**
   * `swipe(startX, startY, endX, endY, duration = 300)`: a straight two-point
   * stroke from start to end lasting `duration` ms, whatever the distance.
   */
  function Swipe(startX: int, startY: int, endX: int, endY: int, duration: int := DefaultSwipeDuration): (r: Result<Gesture, GestureFault>)
    ensures r.Success? <==>
              startX >= 0 && startY >= 0 && endX >= 0 && endY >= 0 && 0 < duration <= MaxGestureDuration
    ensures duration <= 0 ==> r == Failure(NonPositiveDuration)
    ensures r.Success? ==>
              var g := r.value;
              && SingleStroke(g) && g.strokes[0].startTime == 0
              && g.strokes[0].path == [Point(startX, startY), Point(endX, endY)]
              && StartPoint(g) == Point(startX, startY) && EndPoint(g) == Point(endX, endY)
              && TotalDuration(g) == duration
  {
    var path := [Point(startX, startY), Point(endX, endY)];
    assert NonNegativeBounds(path) <==> startX >= 0 && startY >= 0 && endX >= 0 && endY >= 0 by {
      assert path[0] == Point(startX, startY) && path[1] == Point(endX, endY);
    }
    BuildSingle(Stroke(path, 0, duration))
  }

  /**
   * The default durations: a long click holds 500 ms and a swipe takes 300 ms
   * whatever the distance; a 60 000 ms hold is the longest the platform
   * accepts.
   */
  lemma DefaultDurations(x: nat, y: nat, x2: nat, y2: nat)
    ensures LongClick(x, y).Success? && TotalDuration(LongClick(x, y).value) == 500
    ensures Swipe(x, y, x2, y2).Success? && TotalDuration(Swipe(x, y, x2, y2).value) == 300
    ensures Swipe(0, 0, 100, 100, 300).Success? && Swipe(0, 0, 1, 1, 300).Success?
    ensures TotalDuration(Swipe(0, 0, 100, 100, 300).value) == TotalDuration(Swipe(0, 0, 1, 1, 300).value)
    ensures LongClick(x, y, MaxGestureDuration).Success? && LongClick(x, y, MaxGestureDuration + 1) == Failure(TooLong)
  {
  }
}
