/**
 * The accessibility service's own state around the capture pipeline: the
 * process-wide capture grant, the `isRunning` busy flag of the one-shot
 * "screenshot, crop, recognise" run started from the floating button, the
 * routing of a capture attempt's outcomes to that run's callback, and the
 * gestures it dispatches.
 */
module Service {
  import opened Wrappers
  import Frames
  import OcrRegion
  import Gestures
  import Capture

  /**
   * The companion object's `mediaProjection`, shared by the whole process;
   * the model keeps only whether a grant is held.
   */
  class ProjectionGrant {
    var held: bool

    constructor ()
      ensures !held
    {
      held := false;
    }

    /** `setMediaProjection(projection)`; `present` says whether it is non-null. */
    method SetMediaProjection(present: bool)
      modifies this
      ensures held == present
    {
      held := present;
    }

    /** `hasMediaProjection()`. */
    method HasMediaProjection() returns (b: bool)
      ensures b == held
    {
      b := held;
    }

    /** What `onDestroy` does to the grant: stop it and forget it. */
    method Clear()
      modifies this
      ensures !held
    {
      held := false;
    }
  }

  /** Where the one-shot run is; the source keeps this only implicitly, in which callback is pending. */
  datatype RunStage = Idle | Capturing | Recognizing

  class ControlService {
    var isRunning: bool
    var callbackInstalled: bool           // `screenshotCallback != null`
    var session: Capture.CaptureSession?  // the attempt started by the latest `takeScreenshot`
    var consentRequests: nat              // times the main screen was opened to ask for consent
    var recognizerInputs: seq<Frames.Bitmap>  // crops handed to the text recognizer
    var dispatched: seq<Gestures.Gesture>  // gestures passed to `dispatchGesture`
    ghost var stage: RunStage

    /**
     * The busy flag is set exactly while a run is under way, and a capture
     * attempt is pending exactly while the run waits for its screenshot:
     * there is never more than one attempt in flight.
     */
    ghost predicate Valid()
      reads this, session
    {
      && (isRunning <==> stage != Idle)
      && (stage == Capturing <==> session != null && session.IsPending())
    }

    constructor ()
      ensures Valid() && !isRunning && !callbackInstalled && session == null
      ensures consentRequests == 0 && recognizerInputs == [] && dispatched == []
    {
      isRunning, callbackInstalled, session := false, false, null;
      consentRequests, recognizerInputs, dispatched := 0, [], [];
      stage := Idle;
    }

    /** `finishStart`: the run is over; the button's icon reset is not modelled. */
    method FinishStart()
      modifies this`isRunning, this`stage
      ensures !isRunning && stage == Idle
    {
      isRunning := false;
      stage := Idle;
    }

    /**
     * `startOneShotScreenshotSaveAndOcr`: ignored while a run is under way;
     * otherwise the flag is set and, without a capture grant, the consent
     * screen is requested and the run ends at once; with a grant, a capture
     * attempt starts, and an attempt that fails synchronously ends the run.
     */
    method StartOneShot(grant: ProjectionGrant, step: Capture.StartStep)
      requires Valid()
      requires (step.NoDisplay? || step.VirtualDisplayNull?) ==> step.consumer == Capture.Returns
      modifies this
      ensures Valid()
      ensures old(isRunning) ==>
                && isRunning && session == old(session) && consentRequests == old(consentRequests)
                && callbackInstalled == old(callbackInstalled) && stage == old(stage)
      ensures !old(isRunning) && !grant.held ==>
                && !isRunning && session == old(session) && consentRequests == old(consentRequests) + 1
                && callbackInstalled == old(callbackInstalled)
      ensures !old(isRunning) && grant.held ==>
                && session != null && fresh(session) && callbackInstalled
                && session.State() == Capture.Begin(true, step)
                && consentRequests == old(consentRequests)
                && (isRunning <==> step == Capture.Proceed)
      ensures recognizerInputs == old(recognizerInputs) && dispatched == old(dispatched)
    {
      if isRunning {
        return;
      }
      isRunning := true;
      stage := Capturing;
      var has := grant.HasMediaProjection();
      if !has {
        consentRequests := consentRequests + 1;
        FinishStart();
        return;
      }
      TakeScreenshot(grant.held, step);
    }

    /**
     * `takeScreenshot` with the run's callback: install the callback, start
     * an attempt, and pass on the error of an attempt that fails synchronously.
     */
    method TakeScreenshot(projectionHeld: bool, step: Capture.StartStep)
      requires isRunning && stage == Capturing
      requires (step.NoDisplay? || step.VirtualDisplayNull?) ==> step.consumer == Capture.Returns
      modifies this
      ensures Valid()
      ensures session != null && fresh(session) && callbackInstalled
      ensures session.State() == Capture.Begin(projectionHeld, step)
      ensures isRunning <==> session.IsPending()
      ensures consentRequests == old(consentRequests)
      ensures recognizerInputs == old(recognizerInputs) && dispatched == old(dispatched)
    {
      callbackInstalled := true;
      session := new Capture.CaptureSession(projectionHeld, step);
      if !session.IsPending() {
        OnScreenshotError(session.delivered[0].message);
      }
    }

    /** The run's `onScreenshotTaken`: a null bitmap ends the run; otherwise its crop goes to the recognizer. */
    method OnScreenshotTaken(bitmap: Option<Frames.Bitmap>)
      requires bitmap.Some? ==> Frames.WellFormed(bitmap.value)
      modifies this`isRunning, this`stage, this`recognizerInputs
      ensures bitmap.None? ==> !isRunning && stage == Idle && recognizerInputs == old(recognizerInputs)
      ensures bitmap.Some? ==>
                && isRunning == old(isRunning) && stage == Recognizing
                && recognizerInputs == old(recognizerInputs) + [OcrRegion.CropForOcr(bitmap.value)]
    {
      if bitmap.None? {
        FinishStart();
        return;
      }
      recognizerInputs := recognizerInputs + [OcrRegion.CropForOcr(bitmap.value)];
      stage := Recognizing;
    }

    /** The run's `onScreenshotError`: the run ends. */
    method OnScreenshotError(message: string)
      modifies this`isRunning, this`stage
      ensures !isRunning && stage == Idle
    {
      FinishStart();
    }

    /** The recognizer's success or failure listener: after the text file is written, the run ends. */
    method OnRecognitionDone(succeeded: bool)
      requires Valid() && stage == Recognizing
      modifies this`isRunning, this`stage
      ensures Valid() && !isRunning
    {
      FinishStart();
    }

    /** Pass the last call an attempt made on the screenshot callback to the run. */
    method Route(o: Capture.Outcome)
      requires isRunning
      requires o.Taken? ==> Frames.WellFormed(o.bitmap)
      modifies this`isRunning, this`stage, this`recognizerInputs
      ensures o.Failed? ==> !isRunning && stage == Idle && recognizerInputs == old(recognizerInputs)
      ensures o.Taken? ==>
                && isRunning && stage == Recognizing
                && recognizerInputs == old(recognizerInputs) + [OcrRegion.CropForOcr(o.bitmap)]
    {
      match o {
        case Taken(b) => OnScreenshotTaken(Some(b));
        case Failed(m) => OnScreenshotError(m);
      }
    }

    /**
     * The current attempt's image listener fires; the run's callback returns
     * normally. If the attempt was pending, the run ends or moves on to
     * recognition; otherwise nothing changes.
     */
    method ImageAvailable(acquisition: Capture.Acquisition)
      requires Valid() && session != null && session.armed
      modifies this, session
      ensures Valid() && session == old(session)
      ensures session.State() == Capture.OnImage(old(session.State()), acquisition, Capture.Returns)
      ensures !old(session.IsPending()) ==> isRunning == old(isRunning) && recognizerInputs == old(recognizerInputs)
      ensures old(session.IsPending()) ==>
                (isRunning <==> acquisition.Acquired? && Frames.ToBitmap(acquisition.image).Success?)
      ensures old(session.IsPending()) && acquisition.Acquired? && Frames.ToBitmap(acquisition.image).Success? ==>
                recognizerInputs == old(recognizerInputs) + [OcrRegion.CropForOcr(Frames.ToBitmap(acquisition.image).value)]
      ensures !(old(session.IsPending()) && acquisition.Acquired? && Frames.ToBitmap(acquisition.image).Success?) ==>
                recognizerInputs == old(recognizerInputs)
      ensures callbackInstalled == old(callbackInstalled)
      ensures consentRequests == old(consentRequests) && dispatched == old(dispatched)
    {
      var wasPending := session.IsPending();
      session.OnImageAvailable(acquisition, Capture.Returns);
      if wasPending {
        var o := session.delivered[|session.delivered| - 1];
        Route(o);
      }
    }

    /** The current attempt's timeout fires; a pending attempt ends the run with the timeout error. */
    method TimeoutElapsed()
      requires Valid() && session != null && session.armed
      modifies this, session
      ensures Valid() && session == old(session)
      ensures session.State() == Capture.OnTimeout(old(session.State()))
      ensures old(session.IsPending()) ==> !isRunning
      ensures !old(session.IsPending()) ==> isRunning == old(isRunning)
      ensures recognizerInputs == old(recognizerInputs)
      ensures callbackInstalled == old(callbackInstalled)
      ensures consentRequests == old(consentRequests) && dispatched == old(dispatched)
    {
      var wasPending := session.IsPending();
      session.OnTimeoutElapsed();
      if wasPending {
        OnScreenshotError(Capture.TimeoutMessage);
      }
    }

    /** `click(x, y)`: dispatch a 100 ms tap; a tap the platform refuses to build is not dispatched. */
    method Click(x: int, y: int)
      modifies this`dispatched
      ensures Gestures.Click(x, y).Success? ==> dispatched == old(dispatched) + [Gestures.Click(x, y).value]
      ensures Gestures.Click(x, y).Failure? ==> dispatched == old(dispatched)
    {
      var built := Gestures.Click(x, y);
      if built.Success? {
        dispatched := dispatched + [built.value];
      }
    }

    /** `longClick(x, y, duration = 500)`. */
    method LongClick(x: int, y: int, duration: int := Gestures.DefaultLongClickDuration)
      modifies this`dispatched
      ensures Gestures.LongClick(x, y, duration).Success? ==> dispatched == old(dispatched) + [Gestures.LongClick(x, y, duration).value]
      ensures Gestures.LongClick(x, y, duration).Failure? ==> dispatched == old(dispatched)
    {
      var built := Gestures.LongClick(x, y, duration);
      if built.Success? {
        dispatched := dispatched + [built.value];
      }
    }

    /** `swipe(startX, startY, endX, endY, duration = 300)`. */
    method Swipe(startX: int, startY: int, endX: int, endY: int, duration: int := Gestures.DefaultSwipeDuration)
      modifies this`dispatched
      ensures Gestures.Swipe(startX, startY, endX, endY, duration).Success? ==> dispatched == old(dispatched) + [Gestures.Swipe(startX, startY, endX, endY, duration).value]
      ensures Gestures.Swipe(startX, startY, endX, endY, duration).Failure? ==> dispatched == old(dispatched)
    {
      var built := Gestures.Swipe(startX, startY, endX, endY, duration);
      if built.Success? {
        dispatched := dispatched + [built.value];
      }
    }
  }
}
