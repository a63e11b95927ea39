# WJDR assistant: capture-and-query core, modelled in Dafny

This project models the core of the Android accessibility service
`AccessibilityControlService`. The core covers five things:

- One screenshot attempt. An `ImageReader` receives frames from a
  `VirtualDisplay` that mirrors the screen. Two handlers race: "image
  available" and a 2000 ms timeout. A boolean latch lets only the first one
  deliver an outcome and release both resources.
- The conversion of a captured image plane into a bitmap, with the row
  padding stripped.
- The crop rectangle handed to text recognition.
- Click resolution on the accessibility tree, by text and by view id.
- The tap, long-press and swipe gestures, and the `isRunning` busy flag of
  the one-shot "screenshot, crop, recognise" run started from the floating
  button.

Modules, one per component, all in the repository's file
`AccessibilityControlService.kt`:

- `Wrappers` (wrappers.dfy): `Option` and `Result`.
- `Frames` (frames.dfy): bitmaps and `imageToBitmap`. A pure
  specification (`ToBitmap`) and the row-by-row copy into a 2-D pixel array
  (`ImageToBitmap`), proved equal.
- `OcrRegion` (ocr_region.dfy): `cropForOcr`.
- `Gestures` (gestures.dfy): `click`, `longClick` and `swipe` as stroke
  values, with the platform's checks on strokes and gesture length.
- `UiTree` (ui_tree.dfy): `clickByText` (a loop up the parent chain) and
  `clickById`.
- `Capture` (capture.dfy): the screenshot attempt. Pure functions give the
  session state after the synchronous part and after each handler. Lemmas
  cover every order of handler runs. The class `CaptureSession` holds the
  same locals (`imageReader`, `virtualDisplay`, `imageProcessed`) and is
  proved to follow the functions step by step.
- `Service` (service.dfy): the process-wide capture grant and the
  `ControlService` class. The class covers `isRunning`, the installed
  screenshot callback, routing of an attempt's outcome to the run, the crops
  handed to the recognizer, and the dispatched gestures. Its invariant says
  the flag is set exactly while a run is under way. It also says a capture
  attempt is pending exactly while the run waits for it, so at most one
  attempt is in flight.

Inputs that the platform decides are parameters:

- whether a capture grant is held;
- how allocation goes (`StartStep`);
- what `acquireLatestImage` returns (`Acquisition`);
- whether the consumer's callback throws (`ConsumerReaction`), in the image
  handler and on the two null-check errors of the synchronous part.

The two handlers are methods that may be called in either order.

Behaviour of the code that a reader might not expect, which the model keeps:

- Errors are plain message strings passed to `onScreenshotError`.
- A second start while a run is under way is silently ignored (`return`);
  the caller gets no error.
- `clickById` does not fall back to clickable ancestors; only `clickByText`
  does.
- Delivery is exactly once only when the consumer's callback returns
  normally. If `onScreenshotTaken` (or the "no image" `onScreenshotError`)
  throws, the handler's catch delivers a second, error call
  (`Capture.ConsumerFaultDeliversTwice`). The same holds for the "no
  display" and "no virtual display" errors, which are reported inside the
  outer try: a throwing consumer gets a second "截图失败: …" call from the
  outer catch (`Capture.StartFaultDeliversTwice`).
- A gesture the platform refuses to build (a non-positive duration, a
  point at negative coordinates, more than 60 000 ms in all) throws out of
  `click`, `longClick` or `swipe`, and nothing is dispatched.

## Model

| member | source | states |
|---|---|---|
| `Frames.SubBitmap` | app/src/main/java/com/example/wjdrassistant/AccessibilityControlService.kt:452 | `createBitmap(source, x, y, w, h)` is the w×h window at (x, y): each pixel (row, col) is the source's pixel (y+row, x+col) |
| `Frames.PaddedWidth` | app/src/main/java/com/example/wjdrassistant/AccessibilityControlService.kt:440-447 | the padded width `image.width + rowPadding / pixelStride` (truncating) is at least the width when rows are padded, at most the width when the row stride is short, and is exactly the row stride in pixels when the padding is whole pixels |
| `Frames.Padded` | app/src/main/java/com/example/wjdrassistant/AccessibilityControlService.kt:446-451 | the padded bitmap filled by `copyPixelsFromBuffer` takes pixel k, counted row by row, from bytes 4k..4k+3 of the plane |
| `Frames.ToBitmap` | app/src/main/java/com/example/wjdrassistant/AccessibilityControlService.kt:439-453 | conversion succeeds exactly when the pixel stride is non-zero, the height is at least 1, 1 <= width <= padded width (`width + rowPadding / pixelStride`, truncating) and the buffer holds the whole padded bitmap; the result is exactly width × height and is the top-left window of the padded bitmap |
| `Frames.ImageToBitmap` | app/src/main/java/com/example/wjdrassistant/AccessibilityControlService.kt:439-453 | the row-by-row copy into a width×height pixel array returns exactly `ToBitmap`, failures included |
| `Frames.TrimRecoversImage` | app/src/main/java/com/example/wjdrassistant/AccessibilityControlService.kt:440-452 | for an RGBA_8888 plane whose row padding is whole pixels, the padded width is the row stride in pixels and the trimmed bitmap holds at (row, col) the plane's own pixel at `row*rowStride + col*pixelStride`: padding is stripped, nothing is shifted |
| `OcrRegion.CoerceIn` | app/src/main/java/com/example/wjdrassistant/AccessibilityControlService.kt:321-324 | `coerceIn(lo, hi)` lies in [lo, hi], is the value when it is in range, and is the nearer bound otherwise |
| `OcrRegion.CropRegion` | app/src/main/java/com/example/wjdrassistant/AccessibilityControlService.kt:318-324 | for every frame at least 1×1: `0 <= left < right <= w` and `0 <= top < bottom <= h` |
| `OcrRegion.CropUnclampedWidth` | app/src/main/java/com/example/wjdrassistant/AccessibilityControlService.kt:321-323 | for every frame at least 2 wide, whatever its height, no horizontal clamp acts: the region spans exactly 10%..90% of the width |
| `OcrRegion.CropUnclampedHeight` | app/src/main/java/com/example/wjdrassistant/AccessibilityControlService.kt:322-324 | for every frame at least 4 high, whatever its width, no vertical clamp acts: the region spans exactly 5%..25% of the height |
| `OcrRegion.CropMinimumSpan` | app/src/main/java/com/example/wjdrassistant/AccessibilityControlService.kt:321-324 | a 1-pixel-wide frame keeps column 0 only; a frame at most 3 high keeps row 0 only |
| `OcrRegion.CropExamples` | app/src/main/java/com/example/wjdrassistant/AccessibilityControlService.kt:318-324 | 1×1 gives (0,0,1,1); 1000×2000 gives left 100, top 100, right 900, bottom 500 |
| `OcrRegion.CropForOcr` | app/src/main/java/com/example/wjdrassistant/AccessibilityControlService.kt:318-326 | the crop is a well-formed bitmap of the region's size holding the screenshot's pixels at the region's offset |
| `Gestures.BuildSingle` | app/src/main/java/com/example/wjdrassistant/AccessibilityControlService.kt:464-465 | a one-stroke gesture is built exactly when the stroke's duration is positive, its start time is not negative, every point of its path is at non-negative coordinates and it ends by 60 000 ms; it then holds exactly that stroke; a non-positive duration is the first fault reported |
| `Gestures.Click` | app/src/main/java/com/example/wjdrassistant/AccessibilityControlService.kt:459-468 | the tap is built exactly when x and y are not negative (otherwise the path-bounds fault); it is one stroke starting at time 0, a single point (x, y), lasting 100 ms in total |
| `Gestures.LongClick` | app/src/main/java/com/example/wjdrassistant/AccessibilityControlService.kt:474-483 | the long press is built exactly when x, y >= 0 and 0 < duration <= 60 000 (a non-positive duration and an over-long one are reported as such); it is one stroke starting at time 0, a single point (x, y), lasting `duration` ms |
| `Gestures.Swipe` | app/src/main/java/com/example/wjdrassistant/AccessibilityControlService.kt:489-506 | the swipe is built exactly when all four coordinates are not negative and 0 < duration <= 60 000; it is one stroke starting at time 0 over exactly the two points [start, end], lasting `duration` ms whatever the distance |
| `Gestures.DefaultDurations` | app/src/main/java/com/example/wjdrassistant/AccessibilityControlService.kt:474-494 | on-screen calls with the defaults are built: a long click lasts 500 ms, a swipe 300 ms whatever the distance; a 60 000 ms hold is accepted and 60 001 ms is refused as too long |
| `UiTree.Select` | app/src/main/java/com/example/wjdrassistant/AccessibilityControlService.kt:513 | a search lists every matching node, only matching nodes, each once, in window order |
| `UiTree.FindByText` | app/src/main/java/com/example/wjdrassistant/AccessibilityControlService.kt:513 | `findAccessibilityNodeInfosByText` lists exactly the nodes whose non-empty text contains the query, in strictly increasing window order; an empty query matches nothing |
| `UiTree.FindById` | app/src/main/java/com/example/wjdrassistant/AccessibilityControlService.kt:540 | `findAccessibilityNodeInfosByViewId` lists exactly the nodes with that view id, in strictly increasing window order |
| `UiTree.NoMatchSelectsNothing` | app/src/main/java/com/example/wjdrassistant/AccessibilityControlService.kt:513-515 | a search over a window in which no node matches returns an empty list |
| `UiTree.EmptyQueryFindsNothing` | app/src/main/java/com/example/wjdrassistant/AccessibilityControlService.kt:511-516 | an empty query finds no node, so `clickByText("")` activates nothing |
| `UiTree.FirstMatchIsEarliest` | app/src/main/java/com/example/wjdrassistant/AccessibilityControlService.kt:515-516 | `nodes[0]` is the earliest matching node of the window |
| `UiTree.Chain` | app/src/main/java/com/example/wjdrassistant/AccessibilityControlService.kt:522-528 | the ancestor chain starts at the node itself, contains only nodes of the window, each entry's parent is the next entry, and the last entry has no parent |
| `UiTree.NearestClickable` | app/src/main/java/com/example/wjdrassistant/AccessibilityControlService.kt:517-529 | the parent walk returns the node itself when it is clickable, and whatever it returns is a clickable node no later in the window than the start |
| `UiTree.FoundIsFirstOnChain` | app/src/main/java/com/example/wjdrassistant/AccessibilityControlService.kt:517-529 | when the walk finds a node, it is on the chain and every earlier node of the chain is not clickable |
| `UiTree.NoneOnChain` | app/src/main/java/com/example/wjdrassistant/AccessibilityControlService.kt:520-529 | when the walk finds nothing, no node of the chain is clickable |
| `UiTree.NearestClickableIsFirstOnChain` | app/src/main/java/com/example/wjdrassistant/AccessibilityControlService.kt:517-529 | the parent walk finds the first clickable node of the chain node, parent, grandparent, …, with every earlier node non-clickable, and finds nothing exactly when no node of the chain is clickable |
| `UiTree.GrandparentReceivesClick` | app/src/main/java/com/example/wjdrassistant/AccessibilityControlService.kt:520-528 | a non-clickable match with a non-clickable parent and a clickable grandparent resolves to the grandparent |
| `UiTree.ClickByText` | app/src/main/java/com/example/wjdrassistant/AccessibilityControlService.kt:511-533 | no window or no match gives no click; otherwise exactly the nearest clickable node on the first match's chain is activated, or none when the chain has no clickable node; only the first match is considered and at most one node is activated |
| `UiTree.ClickById` | app/src/main/java/com/example/wjdrassistant/AccessibilityControlService.kt:538-550 | a click happens, on the first match, exactly when there is a window, some node has the id, and the first such node is itself clickable |
| `UiTree.ClickByIdNoFallback` | app/src/main/java/com/example/wjdrassistant/AccessibilityControlService.kt:542-549 | a non-clickable first match by id is not clicked, whatever its ancestors |
| `Capture.Reported` | app/src/main/java/com/example/wjdrassistant/AccessibilityControlService.kt:340-372 | an error reported inside the outer try is that call, followed by the outer catch's "截图失败: " + message ("null" when absent) exactly when the consumer's callback throws |
| `Capture.Begin` | app/src/main/java/com/example/wjdrassistant/AccessibilityControlService.kt:329-437 | the handlers are armed exactly when a grant is held and allocation succeeds, with both resources open and nothing delivered; every other start leaves nothing open and delivers only errors: one, or two exactly when the consumer throws on the "no display" or "no virtual display" report; no grant delivers only "需要先授予屏幕捕获权限"; no display allocates nothing and reports "无法获取显示器" first; a null virtual display closes the reader and reports its message first; a thrown exception delivers exactly the prefixed message |
| `Capture.ImageDeliveries` | app/src/main/java/com/example/wjdrassistant/AccessibilityControlService.kt:381-392 | the image handler makes one callback call, or two exactly when the consumer's first callback throws; it delivers the converted bitmap when conversion succeeds and only errors otherwise: "无法获取图像" for no image, the conversion fault's message for a failed conversion, the exception's message or "处理图像失败" for a failed acquisition, and the consumer's exception message or "处理图像失败" as the second call |
| `Capture.OnImage` | app/src/main/java/com/example/wjdrassistant/AccessibilityControlService.kt:377-401 | the image handler changes nothing once the latch is set or before arming; otherwise it sets the latch, releases both resources and appends exactly its deliveries |
| `Capture.OnTimeout` | app/src/main/java/com/example/wjdrassistant/AccessibilityControlService.kt:405-416 | the timeout task changes nothing once the latch is set; otherwise it sets the latch, delivers "截图超时" and releases both resources |
| `Capture.SettledIsFinal` | app/src/main/java/com/example/wjdrassistant/AccessibilityControlService.kt:376-416 | once the latch is set, or when nothing was armed, any further handler runs change nothing |
| `Capture.FirstHandlerWins` | app/src/main/java/com/example/wjdrassistant/AccessibilityControlService.kt:376-416 | from a pending attempt, whatever handlers run, the first one's outcome is all that is delivered and both resources end released |
| `Capture.LateImageAfterTimeout` | app/src/main/java/com/example/wjdrassistant/AccessibilityControlService.kt:405-416 | a frame arriving after the timeout yields only "截图超时" and both resources released |
| `Capture.ExactlyOnce` | app/src/main/java/com/example/wjdrassistant/AccessibilityControlService.kt:329-437 | if the consumer's first callback returns normally, then from any start and after any handler runs a settled attempt has delivered exactly one outcome and holds nothing open, and a pending one has delivered nothing and holds both |
| `Capture.ConsumerFaultDeliversTwice` | app/src/main/java/com/example/wjdrassistant/AccessibilityControlService.kt:381-392 | when the consumer's callback throws on the bitmap or on "无法获取图像" in the image handler, the caller receives exactly two calls: that outcome, then the exception's message or "处理图像失败" |
| `Capture.StartFaultDeliversTwice` | app/src/main/java/com/example/wjdrassistant/AccessibilityControlService.kt:340-436 | when the consumer throws on the "no display" or "no virtual display" report, the caller receives that error then "截图失败: " + the exception's message, whatever handlers run later, and the reader, if created, ends closed |
| `Capture.NoLeak` | app/src/main/java/com/example/wjdrassistant/AccessibilityControlService.kt:330-436 | on every modelled start and handler order a resource is open exactly while the attempt is pending, and a settled attempt has made one or two calls |
| `Capture.CaptureSession.constructor` | app/src/main/java/com/example/wjdrassistant/AccessibilityControlService.kt:329-416 | the step-by-step synchronous part ends in the state `Begin` gives |
| `Capture.CaptureSession.CatchFailure` | app/src/main/java/com/example/wjdrassistant/AccessibilityControlService.kt:418-436 | a caught exception delivers "截图权限不足: " or "截图失败: " followed by the message ("null" when absent), then releases the display and closes the reader if they exist |
| `Capture.CaptureSession.OnImageAvailable` | app/src/main/java/com/example/wjdrassistant/AccessibilityControlService.kt:377-401 | the listener's new state is `OnImage` of the old one: nothing once the latch is set, otherwise latch, deliver and release |
| `Capture.CaptureSession.OnTimeoutElapsed` | app/src/main/java/com/example/wjdrassistant/AccessibilityControlService.kt:405-416 | the timeout task's new state is `OnTimeout` of the old one |
| `Service.ProjectionGrant.constructor` | app/src/main/java/com/example/wjdrassistant/AccessibilityControlService.kt:43 | the process starts with no grant held |
| `Service.ProjectionGrant.SetMediaProjection` | app/src/main/java/com/example/wjdrassistant/AccessibilityControlService.kt:47-49 | the grant is held exactly when a non-null projection was set |
| `Service.ProjectionGrant.HasMediaProjection` | app/src/main/java/com/example/wjdrassistant/AccessibilityControlService.kt:51 | reports whether the grant is held |
| `Service.ProjectionGrant.Clear` | app/src/main/java/com/example/wjdrassistant/AccessibilityControlService.kt:75-76 | after the service is destroyed no grant is held |
| `Service.ControlService.constructor` | app/src/main/java/com/example/wjdrassistant/AccessibilityControlService.kt:54-61 | the service starts idle: not running, no callback, no attempt, nothing dispatched |
| `Service.ControlService.FinishStart` | app/src/main/java/com/example/wjdrassistant/AccessibilityControlService.kt:310-311 | the busy flag is cleared |
| `Service.ControlService.StartOneShot` | app/src/main/java/com/example/wjdrassistant/AccessibilityControlService.kt:241-266 | a start while running changes nothing; otherwise without a grant the consent screen is requested once and the flag ends clear; with a grant a fresh attempt starts in state `Begin(true, step)` and the flag stays set exactly when that attempt is pending; the invariant is kept |
| `Service.ControlService.TakeScreenshot` | app/src/main/java/com/example/wjdrassistant/AccessibilityControlService.kt:96-142 | installs the callback and starts a fresh attempt; an attempt that fails synchronously ends the run |
| `Service.ControlService.OnScreenshotTaken` | app/src/main/java/com/example/wjdrassistant/AccessibilityControlService.kt:267-283 | a null bitmap ends the run; otherwise the run stays busy and exactly the `cropForOcr` crop is handed to the recognizer |
| `Service.ControlService.OnScreenshotError` | app/src/main/java/com/example/wjdrassistant/AccessibilityControlService.kt:304-306 | a screenshot error ends the run |
| `Service.ControlService.OnRecognitionDone` | app/src/main/java/com/example/wjdrassistant/AccessibilityControlService.kt:284-301 | recognition success or failure ends the run and keeps the invariant |
| `Service.ControlService.Route` | app/src/main/java/com/example/wjdrassistant/AccessibilityControlService.kt:386-408 | the attempt's callback call goes to the run: an error ends it with no recognizer input, a bitmap moves it to recognition with exactly its `cropForOcr` crop handed to the recognizer |
| `Service.ControlService.ImageAvailable` | app/src/main/java/com/example/wjdrassistant/AccessibilityControlService.kt:377-401 | the attempt steps as `OnImage`; if it was pending the run stays busy exactly when a bitmap was delivered, and then exactly that bitmap's `cropForOcr` crop is handed to the recognizer; otherwise the recognizer inputs are unchanged; the invariant is kept |
| `Service.ControlService.TimeoutElapsed` | app/src/main/java/com/example/wjdrassistant/AccessibilityControlService.kt:405-416 | the attempt steps as `OnTimeout`; a pending attempt ends the run; the invariant is kept |
| `Service.ControlService.Click` | app/src/main/java/com/example/wjdrassistant/AccessibilityControlService.kt:459-468 | exactly the tap gesture is appended to the dispatched gestures when the platform builds it; a refused gesture dispatches nothing |
| `Service.ControlService.LongClick` | app/src/main/java/com/example/wjdrassistant/AccessibilityControlService.kt:474-483 | exactly the long-press gesture is appended to the dispatched gestures when the platform builds it; a refused gesture dispatches nothing |
| `Service.ControlService.Swipe` | app/src/main/java/com/example/wjdrassistant/AccessibilityControlService.kt:489-506 | exactly the swipe gesture is appended to the dispatched gestures when the platform builds it; a refused gesture dispatches nothing |

## Left out

- The floating overlay is not modelled. This covers `showFloatingControls`, its drag handling, `removeFloatingControls`, the start-button icon changes (245-248, 312-315) and the stop button (158-162). The stop button clears `isRunning` but also removes the controls, so no further start can be pressed. These are view and window-manager code.
- Threads, loopers and wall-clock time are not modelled. The two handlers are methods called in any order, and the 2000 ms delay is only a constant.
- The `MediaProjection`, `ImageReader` and `VirtualDisplay` objects are reduced to the state of each resource: unallocated, open or released.
- Exceptions thrown by `release()` or `close()` are not modelled. The source catches and logs them (397-399, 412-414, 424-426, 433-435); the model assumes release succeeds.
- `Capture.NoLeak`: it holds only when the consumer returns from the timeout report (408) and from the outer catches' reports (420, 429). Those reports come before the release, and only the image handler releases in a `finally` (393-399). So a consumer that throws there makes the source skip the release at 410-411, 422-423 or 431-432, and the reader, and the display if created, stay open. The model does not take that input.
- `Capture.ImageDeliveries`: it only models an exception from the consumer's first callback. If the consumer's `onScreenshotError` throws inside the handler's catch block or in the timeout handler, the exception leaves the handler uncaught. That is not modelled.
- `Capture.Begin`: a consumer exception is modelled only on the "no display" and "no virtual display" reports, and it is taken to be an ordinary exception, not a `SecurityException` (which would get the "截图权限不足: " prefix). A consumer that throws on the "no grant" report (332, outside the try) or inside either outer catch (420, 429) propagates the exception to the caller of `takeScreenshot`; that is not modelled.
- `image.close()` (385) is not modelled. It is skipped when conversion throws; closing the reader frees the image anyway.
- Only one attempt at a time is modelled, through `screenshotCallback` (97). A second `takeScreenshot` while an attempt is in flight would redirect the first attempt's outcome. The busy flag prevents this, and the model has one current attempt.
- `OcrRegion.CropRegion`: the float factors `0.10f`, `0.05f`, `0.90f` and `0.25f` are taken as exact percentages, truncated. Float rounding of the products is not modelled.
- Pixel internals of `copyPixelsFromBuffer` are not modelled beyond taking 4 bytes per pixel, row by row. Kotlin `Int` overflow in the stride arithmetic is not modelled.
- `Frames.FaultMessage`: these texts are the Android runtime's ("divide by zero") and the Android framework's wording, not the repository's.
- `UiTree.FindByText`: it matches when the query and the node's text are both non-empty and the text contains the query exactly. The platform's search also ignores case and looks at content descriptions. `UiTree.FindById` matches the view id exactly. Both searches are platform code.
- `UiTree.WellFormed` asks only that each parent be listed before its children; the window order is taken to be the order in which the platform's searches report matches, and its depth-first shape is not checked.
- The window is a borrowed snapshot. The platform tree can change between two calls; that is not modelled.
- `performAction` and `dispatchGesture` are recorded effects only. For clicks, the returned `ClickOutcome` names the activated node. For gestures, the service's dispatched list is the record. The platform's result, the `GestureResultCallback` and its completion or cancellation are not modelled.
- `Gestures.BuildSingle`: the platform's checks are modelled as a fault kind without the exception's text; the empty-path and stroke-count checks cannot fail for the one-stroke, one- or two-point gestures built here. Float coordinates are modelled as integers, so a fractional negative coordinate is not represented.
- Saving the PNG (`saveScreenshotToFile`, 555-567) and writing the text file (286, 296) are not modelled: they are file I/O.
- The ML Kit text recognizer (281-301) is not modelled: it is a foreign library. The model records the crop handed to it, and its completion is the `OnRecognitionDone` call.
- The commented-out `takeScreenshot` API path (101-139) and `getMainDisplayId` (574-587) are not modelled. `mediaProjection.stop()` (75) is not modelled either; only the grant being forgotten is. Logging is not modelled.
- MainActivity.kt and ScreenCaptureForegroundService.kt are not part of this model. They are permission, consent, app-launch and foreground-service wrappers over Android system services.
