/** The platform values the pip-custom example passes around: Swift's integer
    widths, the CoreMedia time and timing records, and the opaque CoreVideo
    and CoreMedia handles. The frameworks themselves are not modelled: their
    constructors appear elsewhere as oracles that may fail. */
module Platform {

  /** Swift's `Optional`: `None` stands for `nil`. */
  datatype Option<+T> = None | Some(value: T)

  /** Swift's `Int` is 64 bits wide on every device the example runs on;
      arithmetic that leaves this range traps. */
  const INT_MIN: int := -0x8000_0000_0000_0000
  const INT_MAX: int := 0x7fff_ffff_ffff_ffff

  predicate IsInt(x: int) {
    INT_MIN <= x <= INT_MAX
  }

  type Int = x: int | IsInt(x)

  /** `CMTimeScale` is a 32-bit signed integer; `CMTimeScale(x)` traps when
      `x` does not fit. */
  const INT32_MIN: int := -0x8000_0000
  const INT32_MAX: int := 0x7fff_ffff

  predicate IsInt32(x: int) {
    INT32_MIN <= x <= INT32_MAX
  }

  /** A size in points, as `CGSize` is used here (whole numbers only). */
  datatype Size = Size(width: int, height: int)

  /** `CMTime`: the rational number `value / timescale` seconds. */
  datatype CMTime = CMTime(value: int, timescale: int)
  {
    /** The time in seconds; only meaningful for a positive timescale. */
    function Seconds(): real
      requires timescale > 0
    {
      value as real / timescale as real
    }
  }

  /** `CMSampleTimingInfo`. */
  datatype SampleTimingInfo = SampleTimingInfo(
    duration: CMTime,
    presentationTimeStamp: CMTime,
    decodeTimeStamp: CMTime)

  /** `kCVPixelFormatType_32ARGB`, the only pixel format the example asks for. */
  datatype PixelFormat = ARGB32

  /** Bytes one pixel of the format occupies in a row. */
  function BytesPerPixel(format: PixelFormat): nat {
    match format
    case ARGB32 => 4
  }

  /** Opaque `CVPixelBufferPool` and `CMFormatDescription` handles. */
  datatype PixelBufferPool = PixelBufferPool(handle: nat)
  datatype FormatDescription = FormatDescription(handle: nat)

  /** `CVPixelBufferLockFlags`. */
  datatype LockFlags = NoLockFlags | ReadOnly

  /** A solid colour given by its hue as the fraction `step / steps` of a turn
      (full saturation and brightness, opaque), as `UIColor(hue:...)` takes it. */
  datatype Hue = Hue(step: int, steps: int)

  /** What happens to a pixel buffer, in order: base-address locks and
      unlocks, and the solid fills a bitmap context over its base address
      draws. */
  datatype BufferEvent =
    | Locked(lockFlags: LockFlags)
    | Unlocked(unlockFlags: LockFlags)
    | Filled(hue: Hue, rect: Size)

  /** A `CVPixelBuffer`. Its pixel memory is abstracted to the log of what
      was done to it. */
  class PixelBuffer {
    const bytesPerRow: int
    var events: seq<BufferEvent>

    constructor (bytesPerRow: int)
      ensures this.bytesPerRow == bytesPerRow && events == []
    {
      this.bytesPerRow := bytesPerRow;
      events := [];
    }

    /** `CVPixelBufferLockBaseAddress`. */
    method LockBaseAddress(flags: LockFlags)
      modifies this
      ensures events == old(events) + [Locked(flags)]
    {
      events := events + [Locked(flags)];
    }

    /** `CVPixelBufferUnlockBaseAddress`. */
    method UnlockBaseAddress(flags: LockFlags)
      modifies this
      ensures events == old(events) + [Unlocked(flags)]
    {
      events := events + [Unlocked(flags)];
    }

    /** A `CGContext.fill` of `rect` with the colour `hue`, through a bitmap
        context drawing into this buffer's base address. */
    method Fill(hue: Hue, rect: Size)
      modifies this
      ensures events == old(events) + [Filled(hue, rect)]
    {
      events := events + [Filled(hue, rect)];
    }
  }

  /** `CGImageAlphaInfo` and the colour space of a bitmap context; the
      example only ever uses these. */
  datatype AlphaInfo = NoneSkipFirst
  datatype ColorSpace = DeviceRGB

  /** The arguments of a `CGContext(data:width:height:...)` call over a
      pixel buffer's base address. */
  datatype BitmapContextRequest = BitmapContextRequest(
    size: Size,
    bitsPerComponent: int,
    bytesPerRow: int,
    space: ColorSpace,
    alphaInfo: AlphaInfo)

  /** A `CMSampleBuffer`: `imageBuffer` is what `CMSampleBufferGetImageBuffer`
      returns for it. */
  datatype SampleBuffer = SampleBuffer(
    imageBuffer: Option<PixelBuffer>,
    formatDescription: FormatDescription,
    timing: SampleTimingInfo)
}
