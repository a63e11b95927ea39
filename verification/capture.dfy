/**
 * One screenshot attempt (`takeScreenshotWithImageReader`).
 *
 * The attempt allocates an image reader and a virtual display mirroring the
 * screen into it, then arms two handlers: "image available" and a 2000 ms
 * timeout. A latch (`imageProcessed`) lets only the first of them deliver an
 * outcome to the screenshot callback and release both resources; the other
 * then does nothing. Early exits deliver one error (two when the consumer's
 * callback throws on an error reported inside the try) and release whatever
 * was already allocated.
 *
 * The pure functions below give the session's state after the synchronous
 * part (`Begin`) and after each handler (`OnImage`, `OnTimeout`); the lemmas
 * state what any order of handler runs delivers; the class `CaptureSession`
 * is the same behaviour written step by step and proved equal to them.
 */
module Capture {
  import opened Wrappers
  import Frames

  /** The life of one platform resource (the image reader, the virtual display). */
  datatype Resource = Unallocated | Open | Released

  /** A call made on the screenshot callback. */
  datatype Outcome = Taken(bitmap: Frames.Bitmap) | Failed(message: string)

  const NoProjectionMessage := "需要先授予屏幕捕获权限"
  const NoDisplayMessage := "无法获取显示器"
  const NoVirtualDisplayMessage := "无法创建虚拟显示，可能需要系统权限"
  const NoImageMessage := "无法获取图像"
  const ProcessingFailedMessage := "处理图像失败"
  const TimeoutMessage := "截图超时"
  const SecurityFailurePrefix := "截图权限不足: "
  const FailurePrefix := "截图失败: "

  /** The timeout the handler is armed with, in milliseconds. */
  const TimeoutMillis := 2000

  /** How far allocation got when an exception was thrown. */
  datatype Stage =
    | BeforeReader    // nothing allocated yet
    | ReaderOnly      // the image reader exists, the virtual display does not
    | BothAllocated   // both exist; thrown while arming the handlers, so none is armed

  /** How the consumer's callback returns when it is called. */
  datatype ConsumerReaction = Returns | Raises(message: Option<string>)

  /**
   * How the synchronous part of the attempt goes, as the platform decides it.
   * The two null checks report their error inside the outer try, so `consumer`
   * says whether that report returns or throws into the outer catch.
   */
  datatype StartStep =
    | Proceed                                     // both resources allocated and both handlers armed
    | NoDisplay(consumer: ConsumerReaction)       // `getDisplay` returned null
    | VirtualDisplayNull(consumer: ConsumerReaction)
                                                  // `createVirtualDisplay` returned null
    | Thrown(stage: Stage, security: bool, message: Option<string>)
                               // an exception (a SecurityException when `security`)

  /** Kotlin's string template `"${e.message}"`, which prints a null message as "null". */
  function Interpolated(message: Option<string>): string
  {
    OrElse(message, "null")
  }

  /** What `reader.acquireLatestImage()` gives the image handler. */
  datatype Acquisition = NoImage | Acquired(image: Frames.Image) | AcquireFailed(message: Option<string>)

  /** A handler run. */
  datatype Event = ImageReady(acquisition: Acquisition, consumer: ConsumerReaction) | TimeoutElapsed

  /** The state of one attempt: its two resources, the handlers, the latch and what was delivered. */
  datatype Session = Session(reader: Resource, display: Resource, armed: bool, processed: bool, delivered: seq<Outcome>)

  /** Still waiting: both handlers armed, neither has run. */
  predicate Pending(s: Session)
  {
    s.armed && !s.processed
  }

  /** No resource of the attempt is left open. */
  predicate NothingOpen(s: Session)
  {
    s.reader != Open && s.display != Open
  }

  /** A resource after `release()` / `close()` on its nullable handle. */
  function AfterRelease(r: Resource): Resource
  {
    if r == Unallocated then Unallocated else Released
  }

  /**
   * An error reported inside the outer try: that call, followed by the outer
   * catch's report when the consumer's callback throws (a thrown exception
   * that is not a `SecurityException`).
   */
  function Reported(o: Outcome, consumer: ConsumerReaction): (d: seq<Outcome>)
    ensures 1 <= |d| <= 2 && d[0] == o && (|d| == 2 <==> consumer.Raises?)
    ensures consumer.Raises? ==> d[1] == Failed(FailurePrefix + Interpolated(consumer.message))
  {
    match consumer
    case Returns => [o]
    case Raises(m) => [o, Failed(FailurePrefix + Interpolated(m))]
  }

  /** The synchronous part of `takeScreenshotWithImageReader`. */
  function Begin(projectionHeld: bool, step: StartStep): (s: Session)
    ensures s.armed <==> projectionHeld && step == Proceed
    ensures s.armed ==> s.reader == Open && s.display == Open && !s.processed && s.delivered == []
    ensures !s.armed ==> NothingOpen(s) && 1 <= |s.delivered| <= 2 && forall o :: o in s.delivered ==> o.Failed?
    ensures !s.armed ==> (|s.delivered| == 2 <==> projectionHeld && (step.NoDisplay? || step.VirtualDisplayNull?) &&
                                                   step.consumer.Raises?)
    ensures !projectionHeld ==> s.reader == Unallocated && s.display == Unallocated &&
                                s.delivered == [Failed(NoProjectionMessage)]
    ensures projectionHeld && step.NoDisplay? ==>
              s.reader == Unallocated && s.display == Unallocated && s.delivered[0] == Failed(NoDisplayMessage)
    ensures projectionHeld && step.VirtualDisplayNull? ==>
              s.reader == Released && s.display == Unallocated && s.delivered[0] == Failed(NoVirtualDisplayMessage)
    ensures projectionHeld && step.Thrown? ==>
              s.delivered == [Failed((if step.security then SecurityFailurePrefix else FailurePrefix) + Interpolated(step.message))]
  {
    if !projectionHeld then Session(Unallocated, Unallocated, false, false, [Failed(NoProjectionMessage)])
    else match step
      case Proceed => Session(Open, Open, true, false, [])
      case NoDisplay(c) => Session(Unallocated, Unallocated, false, false, Reported(Failed(NoDisplayMessage), c))
      case VirtualDisplayNull(c) =>
        // when the report throws, `imageReader.close()` is skipped and the catch closes the reader
        Session(Released, Unallocated, false, false, Reported(Failed(NoVirtualDisplayMessage), c))
      case Thrown(stage, security, message) =>
        var text := (if security then SecurityFailurePrefix else FailurePrefix) + Interpolated(message);
        var reader := if stage == BeforeReader then Unallocated else Released;
        var display := if stage == BothAllocated then Released else Unallocated;
        Session(reader, display, false, false, [Failed(text)])
  }

  /**
   * The calls made when the image handler's try block reaches the callback
   * with outcome `o`: that call, followed by an error when the consumer's
   * callback throws (the handler's catch then reports the exception as well).
   */
  function Consumed(o: Outcome, consumer: ConsumerReaction): seq<Outcome>
  {
    match consumer
    case Returns => [o]
    case Raises(m) => [o, Failed(OrElse(m, ProcessingFailedMessage))]
  }

  /** The callback calls made by one run of the image handler that gets past the latch. */
  function ImageDeliveries(acquisition: Acquisition, consumer: ConsumerReaction): (d: seq<Outcome>)
    ensures 1 <= |d| <= 2
    ensures |d| == 2 <==>
              consumer.Raises? &&
              (acquisition.NoImage? || (acquisition.Acquired? && Frames.ToBitmap(acquisition.image).Success?))
    ensures acquisition.Acquired? && Frames.ToBitmap(acquisition.image).Success? ==>
              d[0] == Taken(Frames.ToBitmap(acquisition.image).value)
    ensures !(acquisition.Acquired? && Frames.ToBitmap(acquisition.image).Success?) ==> forall o :: o in d ==> o.Failed?
    ensures acquisition.NoImage? ==> d[0] == Failed(NoImageMessage)
    ensures acquisition.AcquireFailed? ==> d == [Failed(OrElse(acquisition.message, ProcessingFailedMessage))]
    ensures acquisition.Acquired? && Frames.ToBitmap(acquisition.image).Failure? ==>
              d == [Failed(Frames.FaultMessage(Frames.ToBitmap(acquisition.image).error))]
    ensures |d| == 2 ==> d[1] == Failed(OrElse(consumer.message, ProcessingFailedMessage))
  {
    match acquisition
    case AcquireFailed(m) => [Failed(OrElse(m, ProcessingFailedMessage))]
    case NoImage => Consumed(Failed(NoImageMessage), consumer)
    case Acquired(img) =>
      match Frames.ToBitmap(img)
      case Success(b) => Consumed(Taken(b), consumer)
      case Failure(f) => [Failed(Frames.FaultMessage(f))]
  }

  /**
   * The image-available handler: past the latch it sets the latch, releases
   * both resources and appends its deliveries; otherwise it changes nothing.
   */
  function OnImage(s: Session, acquisition: Acquisition, consumer: ConsumerReaction): (t: Session)
    ensures !Pending(s) ==> t == s
    ensures Pending(s) ==>
              && t.armed && t.processed
              && t.reader == AfterRelease(s.reader) && t.display == AfterRelease(s.display)
              && t.delivered == s.delivered + ImageDeliveries(acquisition, consumer)
  {
    if !s.armed || s.processed then s
    else Session(AfterRelease(s.reader), AfterRelease(s.display), true, true, s.delivered + ImageDeliveries(acquisition, consumer))
  }

  /**
   * The timeout handler, posted `TimeoutMillis` after arming: past the latch
   * it reports the timeout and releases both resources.
   */
  function OnTimeout(s: Session): (t: Session)
    ensures !Pending(s) ==> t == s
    ensures Pending(s) ==>
              && t.armed && t.processed
              && t.reader == AfterRelease(s.reader) && t.display == AfterRelease(s.display)
              && t.delivered == s.delivered + [Failed(TimeoutMessage)]
  {
    if !s.armed || s.processed then s
    else Session(AfterRelease(s.reader), AfterRelease(s.display), true, true, s.delivered + [Failed(TimeoutMessage)])
  }

  function Step(s: Session, e: Event): Session
  {
    match e
    case ImageReady(a, c) => OnImage(s, a, c)
    case TimeoutElapsed => OnTimeout(s)
  }

  /** The handlers run in the order given. */
  function Run(s: Session, events: seq<Event>): Session
    decreases |events|
  {
    if events == [] then s else Run(Step(s, events[0]), events[1..])
  }

  /** What the handler that wins the race delivers. */
  function FirstDeliveries(e: Event): seq<Outcome>
  {
    match e
    case ImageReady(a, c) => ImageDeliveries(a, c)
    case TimeoutElapsed => [Failed(TimeoutMessage)]
  }

  /** Once the latch is set, or when nothing was armed, handler runs change nothing. */
  lemma {:induction false} SettledIsFinal(s: Session, events: seq<Event>)
    requires !Pending(s)
    ensures Run(s, events) == s
    decreases |events|
  {
    if events != [] {
      assert Step(s, events[0]) == s;
      SettledIsFinal(s, events[1..]);
    }
  }

  /**
   * The first handler to run wins: it releases both resources and delivers
   * its outcome, and whatever runs after it delivers nothing more. In
   * particular a frame that arrives after the timeout yields the timeout
   * error and no bitmap.
   */
  lemma {:induction false} FirstHandlerWins(s: Session, events: seq<Event>)
    requires Pending(s) && events != []
    ensures var t := Run(s, events);
            && t.processed
            && t.reader == AfterRelease(s.reader) && t.display == AfterRelease(s.display)
            && t.delivered == s.delivered + FirstDeliveries(events[0])
  {
    var s1 := Step(s, events[0]);
    assert !Pending(s1);
    SettledIsFinal(s1, events[1..]);
  }

  /**
   * A frame that becomes ready only after the 2000 ms timeout has fired
   * yields the timeout error, not a late bitmap, and leaves nothing open.
   */
  lemma LateImageAfterTimeout(acquisition: Acquisition, consumer: ConsumerReaction)
    ensures var t := Run(Begin(true, Proceed), [TimeoutElapsed, ImageReady(acquisition, consumer)]);
            t.delivered == [Failed(TimeoutMessage)] && t.reader == Released && t.display == Released
  {
    FirstHandlerWins(Begin(true, Proceed), [TimeoutElapsed, ImageReady(acquisition, consumer)]);
  }

  /**
   * Exactly once: from any start, after any handler runs, an attempt that is
   * no longer pending has delivered exactly one outcome and holds no open
   * resource, provided the consumer's first callback returns normally; while
   * it is pending nothing has been delivered and both resources are open.
   */
  lemma ExactlyOnce(projectionHeld: bool, step: StartStep, events: seq<Event>)
    requires step.NoDisplay? || step.VirtualDisplayNull? ==> step.consumer == Returns
    requires events != [] && events[0].ImageReady? ==> events[0].consumer == Returns
    ensures var t := Run(Begin(projectionHeld, step), events);
            && (Pending(t) <==> projectionHeld && step == Proceed && events == [])
            && (Pending(t) ==> t.delivered == [] && t.reader == Open && t.display == Open)
            && (!Pending(t) ==> |t.delivered| == 1 && NothingOpen(t))
  {
    var s := Begin(projectionHeld, step);
    if !Pending(s) {
      SettledIsFinal(s, events);
    } else if events != [] {
      FirstHandlerWins(s, events);
    }
  }

  /**
   * The caveat to exactly once: when the consumer's first callback from the
   * image handler throws (on the bitmap or on the "no image" error), the
   * handler's catch reports that exception too, so the caller receives two
   * calls: the first outcome, then the exception's message.
   */
  lemma ConsumerFaultDeliversTwice(events: seq<Event>)
    requires events != [] && events[0].ImageReady? && events[0].consumer.Raises?
    requires var a := events[0].acquisition;
             a.NoImage? || (a.Acquired? && Frames.ToBitmap(a.image).Success?)
    ensures var a, m := events[0].acquisition, events[0].consumer.message;
            var first := if a.NoImage? then Failed(NoImageMessage) else Taken(Frames.ToBitmap(a.image).value);
            Run(Begin(true, Proceed), events).delivered == [first, Failed(OrElse(m, ProcessingFailedMessage))]
  {
    FirstHandlerWins(Begin(true, Proceed), events);
  }

  /**
   * The same caveat on the synchronous path: a "no display" or "no virtual
   * display" report that throws is reported again by the outer catch, and
   * the reader, if created, is still closed.
   */
  lemma StartFaultDeliversTwice(c: Option<string>, events: seq<Event>)
    ensures var t := Run(Begin(true, NoDisplay(Raises(c))), events);
            t.delivered == [Failed(NoDisplayMessage), Failed(FailurePrefix + Interpolated(c))] && NothingOpen(t)
    ensures var t := Run(Begin(true, VirtualDisplayNull(Raises(c))), events);
            t.delivered == [Failed(NoVirtualDisplayMessage), Failed(FailurePrefix + Interpolated(c))] &&
            t.reader == Released && t.display == Unallocated
  {
    SettledIsFinal(Begin(true, NoDisplay(Raises(c))), events);
    SettledIsFinal(Begin(true, VirtualDisplayNull(Raises(c))), events);
  }

  /**
   * No leak on any path: whatever the start and whatever handlers run, a
   * resource is open only while the attempt is pending, and a settled
   * attempt has made one or two callback calls.
   */
  lemma NoLeak(projectionHeld: bool, step: StartStep, events: seq<Event>)
    ensures var t := Run(Begin(projectionHeld, step), events);
            && (t.reader == Open <==> Pending(t))
            && (t.display == Open <==> Pending(t))
            && (Pending(t) || 1 <= |t.delivered| <= 2)
  {
    var s := Begin(projectionHeld, step);
    if !Pending(s) {
      SettledIsFinal(s, events);
    } else if events != [] {
      FirstHandlerWins(s, events);
    }
  }

  /**
   * The locals of one run of `takeScreenshotWithImageReader` and of the two
   * handler closures that share them.
   */
  class CaptureSession {
    var reader: Resource
    var display: Resource
    var armed: bool
    var processed: bool       // `imageProcessed`
    var delivered: seq<Outcome>

    function State(): Session
      reads this
    {
      Session(reader, display, armed, processed, delivered)
    }

    predicate IsPending()
      reads this
    {
      Pending(State())
    }

    /** The synchronous part: allocate, arm, or report the early failure and clean up. */
    constructor (projectionHeld: bool, step: StartStep)
      ensures State() == Begin(projectionHeld, step)
    {
      reader, display, armed, processed, delivered := Unallocated, Unallocated, false, false, [];
      new;
      if !projectionHeld {
        delivered := [Failed(NoProjectionMessage)];
        return;
      }
      if step.NoDisplay? {
        delivered := Reported(Failed(NoDisplayMessage), step.consumer);
        return;
      }
      if step.Thrown? && step.stage == BeforeReader {
        CatchFailure(step.security, step.message);
        return;
      }
      reader := Open;
      if step.Thrown? && step.stage == ReaderOnly {
        CatchFailure(step.security, step.message);
        return;
      }
      if step.VirtualDisplayNull? {
        delivered := Reported(Failed(NoVirtualDisplayMessage), step.consumer);
        reader := Released;
        return;
      }
      display := Open;
      if step.Thrown? {
        CatchFailure(step.security, step.message);
        return;
      }
      armed := true;
    }

    /** The two catch blocks: report the exception, then release what exists. */
    method CatchFailure(security: bool, message: Option<string>)
      modifies this
      ensures delivered == old(delivered) + [Failed((if security then SecurityFailurePrefix else FailurePrefix) + Interpolated(message))]
      ensures reader == AfterRelease(old(reader)) && display == AfterRelease(old(display))
      ensures armed == old(armed) && processed == old(processed)
    {
      var text := if security then SecurityFailurePrefix else FailurePrefix;
      delivered := delivered + [Failed(text + Interpolated(message))];
      display := AfterRelease(display);
      reader := AfterRelease(reader);
    }

    /** The image-available listener; it exists only once the attempt is armed. */
    method OnImageAvailable(acquisition: Acquisition, consumer: ConsumerReaction)
      requires armed
      modifies this
      ensures State() == OnImage(old(State()), acquisition, consumer)
    {
      if processed {
        return;
      }
      processed := true;
      var calls: seq<Outcome>;
      match acquisition {
        case AcquireFailed(m) =>
          calls := [Failed(OrElse(m, ProcessingFailedMessage))];
        case NoImage =>
          calls := Consumed(Failed(NoImageMessage), consumer);
        case Acquired(img) =>
          var converted := Frames.ImageToBitmap(img);
          match converted {
            case Success(b) => calls := Consumed(Taken(b), consumer);
            case Failure(f) => calls := [Failed(Frames.FaultMessage(f))];
          }
      }
      delivered := delivered + calls;
      display := AfterRelease(display);
      reader := AfterRelease(reader);
    }

    /** The delayed timeout task; it is posted only once the attempt is armed. */
    method OnTimeoutElapsed()
      requires armed
      modifies this
      ensures State() == OnTimeout(old(State()))
    {
      if !processed {
        processed := true;
        delivered := delivered + [Failed(TimeoutMessage)];
        display := AfterRelease(display);
        reader := AfterRelease(reader);
      }
    }
  }
}
