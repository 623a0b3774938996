# pip-custom frame pipeline, modelled in Dafny

The `pip-custom` example feeds a picture-in-picture layer with frames it makes itself. It has three parts:

- A `Looper` runs a repeating timer while it is running. Each tick calls its delegate.
- A `CMSampleBufferFactory` makes each frame's sample buffer. It draws the pixel buffer from a `CVPixelBufferPool`. It keeps one pool per frame size, cached under the key `"width,height"`.
- A `FillRenderer` paints each frame in one solid colour. It locks the pixel buffer's base address while it draws. Every `gradationInterval` frames the hue goes once round the colour wheel. An aspect-ratio setting picks the canvas size.

The project models these three parts. The platform frameworks are abstracted away:

- `Timer` is a handle with a `valid` flag.
- The CoreVideo and CoreMedia constructors are oracles passed in as total functions. Each returns an `Option`, where `None` is the source's `nil`.
- The CoreGraphics bitmap-context initializer is an oracle that returns `bool`: whether a context could be made for the requested arguments.
- A `CVPixelBuffer` is an object that records, in order, the locks, unlocks and fills done to it.

Files:

- `platform.dfy` (module `Platform`): Swift's `Int` and `Int32` ranges, `CMTime`, the timing record, the opaque handles and the `PixelBuffer` class.
- `decimal.dfy` (module `Decimal`): how Swift string interpolation writes an `Int`, a parser for that form, and the proof that the two are inverses.
- `looper.dfy` (module `Looping`): the `Looper` class with its `timer` and `isRunning` observers.
- `sample_buffer_factory.dfy` (module `SampleBuffers`): the pool key, the pool attributes, the get-or-create cache, the sample timing, and `make`.
- `fill_renderer.dfy` (module `Rendering`): the `AspectRatio` enum, the canvas sizes, the hue cycle, the lock discipline, and `render(on:)`.

Swift traps are modelled as preconditions, each limited to the path that reaches the trap:

- `fatalError` on a non-positive `gradationInterval`.
- `Int` overflow in `width * 4`. This is only evaluated when a new pool has to be made.
- `Int` overflow in `counter += 1`. This is only evaluated when a frame is drawn.
- The `Int32` conversion `CMTimeScale(refreshRate)`. This is only reached once a pixel buffer and a format description exist.

`render(on:)` locks the base address with the read-only flag although the bitmap context then writes through it. The model records the flag as the source passes it.

## Model

| member | source | states |
|---|---|---|
| `Looping.Looper.constructor` | examples/pip-custom/pip-custom/Looper.swift:38-42 | the looper starts stopped, with no timer and no delegate; `frequencyPerSecond` is stored as given and, being a constant, never changes |
| `Looping.Looper.SetTimer` | examples/pip-custom/pip-custom/Looper.swift:16-20 | overwriting `timer` invalidates the timer it replaces (if any); no other field changes |
| `Looping.Looper.SetIsRunning` | examples/pip-custom/pip-custom/Looper.swift:22-34 | assigning the current value changes nothing at all; false→true schedules a fresh valid timer; setting false leaves no timer and invalidates the old one; the invariant "a timer is held iff running, and it is the only valid timer the looper ever scheduled" is preserved |
| `Looping.Looper.Run` | examples/pip-custom/pip-custom/Looper.swift:45-51 | afterwards the looper is running; from stopped it holds a fresh valid timer; when already running nothing changes and no timer is invalidated |
| `Looping.Looper.Stop` | examples/pip-custom/pip-custom/Looper.swift:54-56 | afterwards the looper is stopped with no timer, and the timer it held is invalidated; stopping when stopped changes nothing (idempotent) |
| `Looping.Looper.HandleLoop` | examples/pip-custom/pip-custom/Looper.swift:58-61 | a tick makes exactly one `loop` call, with this looper, on the delegate if one is set; it changes nothing else |
| `Decimal.IntToDecimalRoundTrip` | examples/pip-custom/pip-custom/SampleBufferFactory.swift:62 | reading back the decimal that `"\(x)"` writes for an `Int` gives `x` |
| `Decimal.IntToDecimalInjective` | examples/pip-custom/pip-custom/SampleBufferFactory.swift:62 | two integers are written alike exactly when they are equal |
| `SampleBuffers.PixelBufferPoolDictionaryKey` | examples/pip-custom/pip-custom/SampleBufferFactory.swift:61-63 | the key `"width,height"` reads back, split at its first comma, as exactly the size it was made from |
| `SampleBuffers.PixelBufferPoolDictionaryKeyInjective` | examples/pip-custom/pip-custom/SampleBufferFactory.swift:61-63 | the keys `"width,height"` of two sizes are equal if and only if the sizes are equal, so each size has its own cache entry |
| `SampleBuffers.PoolKeyDeterminesSize` | examples/pip-custom/pip-custom/SampleBufferFactory.swift:12-13 | in a cache whose keys name the sizes of their pools, the entry under a size's key belongs to that size |
| `SampleBuffers.PixelBufferPoolAttributes` | examples/pip-custom/pip-custom/SampleBufferFactory.swift:66-75 | the pool is asked for the given width and height, 32-bit ARGB, a row alignment of exactly one row of pixels (`width * 4` bytes), CGImage- and bitmap-context-compatible, IOSurface-backed; `width * 4` must fit `Int` |
| `SampleBuffers.CachedPools` | examples/pip-custom/pip-custom/SampleBufferFactory.swift:20-22 | the lookup never removes or replaces an entry and adds at most the size's key; the key is present afterwards iff it was before or pool creation succeeded; a failed creation leaves the cache unchanged; a new entry holds the pool just made |
| `SampleBuffers.SampleTiming` | examples/pip-custom/pip-custom/SampleBufferFactory.swift:44-48 | the timing presents at the given time, decodes when it presents, and lasts `1/refreshRate` seconds for a positive rate; `refreshRate` must fit `Int32` |
| `SampleBuffers.SampleBufferFromPool` | examples/pip-custom/pip-custom/SampleBufferFactory.swift:28-57 | a sample buffer comes back only if a pixel buffer and its format description were made; it is then exactly what the ready-sample-buffer constructor returns for them with the frame's timing (so `nil` when that fails) |
| `SampleBuffers.CMSampleBufferFactory.constructor` | examples/pip-custom/pip-custom/SampleBufferFactory.swift:13 | the cache starts empty |
| `SampleBuffers.CMSampleBufferFactory.Make` | examples/pip-custom/pip-custom/SampleBufferFactory.swift:16-58 | the cache becomes `CachedPools` of the old cache; pool creation is attempted exactly when the key was absent; every cached key names the size of its pool; the result is `nil` when no pool is cached for the size, and otherwise what the rest of `make` builds from that pool |
| `Rendering.RawValue` | examples/pip-custom/pip-custom/Renderer/FillRenderer.swift:14-21 | raw values lie in 0..2 |
| `Rendering.AspectRatioFromRawValue` | examples/pip-custom/pip-custom/Renderer/FillRenderer.swift:14-21 | a raw value names a case iff it is 0, 1 or 2, and the case found has that raw value |
| `Rendering.RawValueRoundTrip` | examples/pip-custom/pip-custom/Renderer/FillRenderer.swift:16-20 | each case (wideScreen 0, square 1, flat 2) is found again from its raw value |
| `Rendering.CanvasSize` | examples/pip-custom/pip-custom/Renderer/FillRenderer.swift:36-45 | every canvas is positive and at most 200×200, with the ratio its case is named for: 16:9, 1:1 or 5:1 (the exact sizes 160×90, 200×200 and 200×40 are the body's table, not part of the contract) |
| `Rendering.HueIndex` | examples/pip-custom/pip-custom/Renderer/FillRenderer.swift:75 | the hue step `counter % gradationInterval` lies in `[0, gradationInterval)` |
| `Rendering.HueIndexAdvances` | examples/pip-custom/pip-custom/Renderer/FillRenderer.swift:74-75 | each drawn frame moves the hue step on by one, wrapping to 0 after the last step |
| `Rendering.HueIndexPeriodic` | examples/pip-custom/pip-custom/Renderer/FillRenderer.swift:23-24 | the hue repeats with period `gradationInterval` frames |
| `Rendering.FrameHue` | examples/pip-custom/pip-custom/Renderer/FillRenderer.swift:75-76 | a frame's colour is the fraction `step / gradationInterval` of a turn, with `0 <= step < gradationInterval` |
| `Rendering.RenderBalancesLock` | examples/pip-custom/pip-custom/Renderer/FillRenderer.swift:53-56 | the lock, optional fill and deferred unlock of one render leave the buffer's lock depth unchanged, and the fill happens while the base address is locked |
| `Rendering.FillRenderer.constructor` | examples/pip-custom/pip-custom/Renderer/FillRenderer.swift:29-34 | `gradationInterval` must be positive (otherwise a fatal error) and is stored unchanged; the counter starts at 0 and the aspect ratio is `wideScreen` |
| `Rendering.FillRenderer.ContextRequestFor` | examples/pip-custom/pip-custom/Renderer/FillRenderer.swift:59-69 | the bitmap context is requested over the current aspect ratio's canvas, with the pixel buffer's own row stride, device RGB and a skipped first (alpha) byte; its four 8-bit components are exactly one 32-bit ARGB pixel, the format the pools are asked for |
| `Rendering.FillRenderer.Render` | examples/pip-custom/pip-custom/Renderer/FillRenderer.swift:47-79 | `counter` goes up by exactly 1 when the frame is drawn and is unchanged when there is no image buffer or no context; with an image buffer, the buffer sees a read-only lock, then the fill of the canvas in the new counter's hue when drawn, then the unlock on every path; the aspect ratio is unchanged; a render does not change whether the same buffer would be drawn again |
| `Rendering.DrawsDependsOnCanvasAndStride` | examples/pip-custom/pip-custom/Renderer/FillRenderer.swift:48-69 | whether a render draws depends only on the aspect ratio and on the image buffer's row stride, not on the counter, the gradation interval or the buffer's history |

## Left out

- The `PiPRenderer` protocol has no logic, and traits are not used here. `FillRenderer` is modelled on its own.
- The view controllers are not part of this model. Neither are the other examples (`pip-basic`, `pip-camera`, `pip-performance`). The view controller's ticking presentation time belongs here too: it is glue around `make`.
- Timer interval and tolerance are floating-point seconds and are not modelled. Neither is run-loop scheduling. That a timer fires only while valid is not modelled either: `HandleLoop` may be called at any time.
- The delegate is a `weak` reference in the source. Its zeroing by reference counting is not modelled. The delegate is reduced to a record of the `loop(_:)` calls it receives.
- Swift `print` diagnostics are left out (the already-running message in `run()`, the failure messages in `make`).
- The return status codes of the CoreVideo and CoreMedia calls are ignored by the source. The model keeps only whether a value came back.
- The contents of a `CMSampleBuffer` are not modelled. Nothing ties the image buffer of a built sample buffer to the pixel buffer it was made from. The creation oracle is unconstrained.
- The hue is kept as the exact fraction `step / gradationInterval`, not as a `CGFloat`. The `UIColor` conversion and the pixel values a fill writes are not modelled; a fill is recorded as an event on the buffer.
- The bitmap context is reduced to whether it could be created for the requested arguments.
- `Rendering.FillRenderer.Render` models the base-address lock as always succeeding. In the source its return code is ignored. If the lock fails, the base address is `nil`, and `CGContext(data: nil, ...)` draws into memory of its own while `counter` still advances. The model instead records that fill on the pixel buffer, under the lock.
