/** `FillRenderer`: draws every frame as one solid colour whose hue goes once
    round the colour wheel every `gradationInterval` frames, on a canvas whose
    shape is chosen by an aspect ratio. */
module Rendering {
  import opened Platform

  /** `FillRenderer.AspectRatio`, an `Int`-backed enum. */
  datatype AspectRatio = WideScreen | Square | Flat

  /** The case's `rawValue`. */
  function RawValue(a: AspectRatio): (raw: int)
    ensures 0 <= raw < 3
  {
    match a
    case WideScreen => 0
    case Square => 1
    case Flat => 2
  }

  /** `AspectRatio(rawValue:)`: exactly 0, 1 and 2 name a case, and the case
      found has the raw value asked for. */
  function AspectRatioFromRawValue(raw: int): (r: Option<AspectRatio>)
    ensures r.Some? <==> 0 <= raw < 3
    ensures r.Some? ==> RawValue(r.value) == raw
  {
    if raw == 0 then Some(WideScreen)
    else if raw == 1 then Some(Square)
    else if raw == 2 then Some(Flat)
    else None
  }

  /** Every case is found again from its raw value. */
  lemma RawValueRoundTrip(a: AspectRatio)
    ensures AspectRatioFromRawValue(RawValue(a)) == Some(a)
  {
  }

  /** `preferedCanvasSize` for an aspect ratio: a positive canvas whose sides
      have the ratio the case is named for (16:9, 1:1, 5:1). */
  function CanvasSize(a: AspectRatio): (s: Size)
    ensures 0 < s.width <= 200 && 0 < s.height <= 200
    ensures a == WideScreen ==> s.width * 9 == s.height * 16
    ensures a == Square ==> s.width == s.height
    ensures a == Flat ==> s.width == 5 * s.height
  {
    match a
    case WideScreen => Size(160, 90)
    case Square => Size(200, 200)
    case Flat => Size(200, 40)
  }

  /** The hue step of frame `counter`: `counter % gradationInterval`. The
      counter is never negative, so Swift's truncating remainder and Dafny's
      Euclidean one agree. */
  function HueIndex(counter: nat, gradationInterval: int): (step: int)
    requires gradationInterval > 0
    ensures 0 <= step < gradationInterval
  {
    counter % gradationInterval
  }

  lemma {:induction false} MulAtLeast(a: int, n: int)
    requires a >= 1 && n > 0
    ensures a * n >= n
    decreases a
  {
    if a > 1 {
      MulAtLeast(a - 1, n);
      assert a * n == (a - 1) * n + n;
    }
  }

  /** `x % n` is the one remainder in `[0, n)` that `x` leaves over a
      multiple of `n`. */
  lemma RemainderUnique(x: int, n: int, q: int, r: int)
    requires n > 0 && 0 <= r < n && x == q * n + r
    ensures x % n == r
  {
    var q', r' := x / n, x % n;
    assert x == q' * n + r';
    assert (q - q') * n == r' - r by {
      assert (q - q') * n == q * n - q' * n;
    }
    if q > q' {
      MulAtLeast(q - q', n);
      assert false;
    } else if q < q' {
      MulAtLeast(q' - q, n);
      assert false;
    }
  }

  /** Each frame moves the hue one step on, wrapping after the last. */
  lemma HueIndexAdvances(counter: nat, gradationInterval: int)
    requires gradationInterval > 0
    ensures HueIndex(counter + 1, gradationInterval)
         == if HueIndex(counter, gradationInterval) == gradationInterval - 1 then 0
            else HueIndex(counter, gradationInterval) + 1
  {
    var q, r := counter / gradationInterval, counter % gradationInterval;
    assert counter == q * gradationInterval + r;
    if r == gradationInterval - 1 {
      assert counter + 1 == (q + 1) * gradationInterval + 0;
      RemainderUnique(counter + 1, gradationInterval, q + 1, 0);
    } else {
      RemainderUnique(counter + 1, gradationInterval, q, r + 1);
    }
  }

  /** The hue cycle repeats every `gradationInterval` frames. */
  lemma {:induction false} HueIndexPeriodic(counter: nat, gradationInterval: int, cycles: nat)
    requires gradationInterval > 0
    ensures HueIndex(counter + cycles * gradationInterval, gradationInterval)
         == HueIndex(counter, gradationInterval)
    decreases cycles
  {
    if cycles > 0 {
      var earlier := counter + (cycles - 1) * gradationInterval;
      HueIndexPeriodic(counter, gradationInterval, cycles - 1);
      assert counter + cycles * gradationInterval == earlier + gradationInterval;
      var q, r := earlier / gradationInterval, earlier % gradationInterval;
      assert earlier == q * gradationInterval + r;
      assert earlier + gradationInterval == (q + 1) * gradationInterval + r;
      RemainderUnique(earlier + gradationInterval, gradationInterval, q + 1, r);
    }
  }

  /** The colour frame `counter` is filled with. */
  function FrameHue(counter: nat, gradationInterval: int): (h: Hue)
    requires gradationInterval > 0
    ensures h.steps == gradationInterval && 0 <= h.step < h.steps
  {
    Hue(HueIndex(counter, gradationInterval), gradationInterval)
  }

  /** The net number of base-address locks held after `events`. */
  function LockDepth(events: seq<BufferEvent>): int {
    if events == [] then 0
    else
      LockDepth(events[..|events| - 1])
      + match events[|events| - 1]
        case Locked(_) => 1
        case Unlocked(_) => -1
        case Filled(_, _) => 0
  }

  /** Every fill happened while the base address was locked. */
  ghost predicate FillsUnderLock(events: seq<BufferEvent>) {
    forall i :: 0 <= i < |events| && events[i].Filled? ==> LockDepth(events[..i]) > 0
  }

  /** What one `render(on:)` that finds an image buffer does to it: a
      read-only lock, the fill when a context could be made, and the
      deferred unlock. */
  function RenderEvents(fill: Option<BufferEvent>): seq<BufferEvent> {
    [Locked(ReadOnly)] + (if fill.Some? then [fill.value] else []) + [Unlocked(ReadOnly)]
  }

  lemma {:induction false} LockDepthAppend(events: seq<BufferEvent>, more: seq<BufferEvent>)
    ensures LockDepth(events + more) == LockDepth(events) + LockDepth(more)
    decreases |more|
  {
    if more != [] {
      var init := more[..|more| - 1];
      LockDepthAppend(events, init);
      assert (events + more)[..|events + more| - 1] == events + init;
      assert (events + more)[|events + more| - 1] == more[|more| - 1];
    } else {
      assert events + more == events;
    }
  }

  /** A render leaves the lock depth as it found it, and fills only under
      its own lock: a buffer whose history was balanced and well-locked
      stays so. */
  lemma RenderBalancesLock(events: seq<BufferEvent>, hue: Hue, rect: Size, drawn: bool)
    ensures var after := events + RenderEvents(if drawn then Some(Filled(hue, rect)) else None);
            && LockDepth(after) == LockDepth(events)
            && (FillsUnderLock(events) && LockDepth(events) >= 0 ==> FillsUnderLock(after))
  {
    var fill: Option<BufferEvent> := if drawn then Some(Filled(hue, rect)) else None;
    var r := RenderEvents(fill);
    var after := events + r;
    LockDepthAppend(events, r);
    assert LockDepth(r) == 0 by {
      LockDepthAppend([Locked(ReadOnly)], r[1..]);
      assert [Locked(ReadOnly)] + r[1..] == r;
      if drawn {
        LockDepthAppend([Filled(hue, rect)], [Unlocked(ReadOnly)]);
        assert r[1..] == [Filled(hue, rect)] + [Unlocked(ReadOnly)];
      }
    }
    if FillsUnderLock(events) && LockDepth(events) >= 0 {
      forall i | 0 <= i < |after| && after[i].Filled?
        ensures LockDepth(after[..i]) > 0
      {
        if i < |events| {
          assert after[..i] == events[..i];
        } else {
          assert drawn && i == |events| + 1;
          assert after[..i] == events + [Locked(ReadOnly)];
          LockDepthAppend(events, [Locked(ReadOnly)]);
        }
      }
    }
  }

  class FillRenderer {
    const gradationInterval: Int
    var counter: Int
    var aspectRatio: AspectRatio

    ghost predicate Valid()
      reads this
    {
      gradationInterval > 0 && counter >= 0
    }

    /** `init(gradationInterval:)`: a non-positive interval is a fatal error. */
    constructor (gradationInterval: Int)
      requires gradationInterval > 0
      ensures Valid()
      ensures this.gradationInterval == gradationInterval
      ensures counter == 0 && aspectRatio == WideScreen
    {
      this.gradationInterval := gradationInterval;
      counter := 0;
      aspectRatio := WideScreen;
    }

    /** The bitmap context `render(on:)` asks for over `pixelBuffer`: the
        canvas of the current aspect ratio, with the buffer's own row stride,
        in device RGB whose 8-bit components (alpha byte skipped) make up
        exactly the 32-bit ARGB pixels the pools are asked for. */
    function ContextRequestFor(pixelBuffer: PixelBuffer): (request: BitmapContextRequest)
      reads this
      ensures request.size == CanvasSize(aspectRatio)
      ensures request.bytesPerRow == pixelBuffer.bytesPerRow
      // `ColorSpace` and `AlphaInfo` have only the one case the example uses,
      // so this clause documents the arguments rather than constraining them.
      ensures request.space == DeviceRGB && request.alphaInfo == NoneSkipFirst
      ensures request.bitsPerComponent * 4 == 8 * BytesPerPixel(ARGB32)
    {
      BitmapContextRequest(CanvasSize(aspectRatio), 8, pixelBuffer.bytesPerRow, DeviceRGB, NoneSkipFirst)
    }

    /** Whether `render(on:)` reaches the drawing step: it needs both an
        image buffer and a bitmap context over it. */
    predicate Draws(sampleBuffer: SampleBuffer, createContext: BitmapContextRequest -> bool)
      reads this
    {
      && sampleBuffer.imageBuffer.Some?
      && createContext(ContextRequestFor(sampleBuffer.imageBuffer.value))
    }

    /** `render(on:)`. A frame is drawn only when the sample buffer has an
        image buffer and a bitmap context over it can be made; only a drawn
        frame advances `counter`, and the base-address lock taken on the
        image buffer is released on every path. `counter += 1` traps at
        `Int.max`. */
    method Render(sampleBuffer: SampleBuffer, createContext: BitmapContextRequest -> bool)
      requires Valid()
      requires Draws(sampleBuffer, createContext) ==> counter < INT_MAX
      modifies this, if sampleBuffer.imageBuffer.Some? then {sampleBuffer.imageBuffer.value} else {}
      ensures Valid() && aspectRatio == old(aspectRatio)
      ensures counter == old(counter) + if old(Draws(sampleBuffer, createContext)) then 1 else 0
      ensures sampleBuffer.imageBuffer.Some? ==>
                var pixelBuffer := sampleBuffer.imageBuffer.value;
                pixelBuffer.events == old(pixelBuffer.events) + RenderEvents(
                  if old(Draws(sampleBuffer, createContext))
                  then Some(Filled(FrameHue(counter, gradationInterval), CanvasSize(aspectRatio)))
                  else None)
      ensures Draws(sampleBuffer, createContext) == old(Draws(sampleBuffer, createContext))
    {
      if sampleBuffer.imageBuffer.None? {
        return;
      }
      var pixelBuffer := sampleBuffer.imageBuffer.value;

      pixelBuffer.LockBaseAddress(ReadOnly);

      if createContext(ContextRequestFor(pixelBuffer)) {
        counter := counter + 1;
        pixelBuffer.Fill(FrameHue(counter, gradationInterval), CanvasSize(aspectRatio));
      }

      pixelBuffer.UnlockBaseAddress(ReadOnly);
    }
  }

  /** Whether a render draws depends only on the aspect ratio and on the
      image buffer's row stride: not on the counter, the gradation interval
      or what was done to the buffer before. */
  lemma DrawsDependsOnCanvasAndStride(r1: FillRenderer, r2: FillRenderer,
                                      b1: SampleBuffer, b2: SampleBuffer,
                                      createContext: BitmapContextRequest -> bool)
    requires r1.aspectRatio == r2.aspectRatio
    requires b1.imageBuffer.Some? <==> b2.imageBuffer.Some?
    requires b1.imageBuffer.Some? && b2.imageBuffer.Some? ==>
               b1.imageBuffer.value.bytesPerRow == b2.imageBuffer.value.bytesPerRow
    ensures r1.Draws(b1, createContext) <==> r2.Draws(b2, createContext)
  {
  }
}
