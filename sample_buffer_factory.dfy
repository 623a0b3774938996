/** `CMSampleBufferFactory`: makes sample buffers for the picture-in-picture
    layer, drawing their pixel buffers from one `CVPixelBufferPool` per frame
    size, kept in a dictionary keyed by the string "width,height". */
module SampleBuffers {
  import opened Platform
  import Decimal

  /** The attributes dictionary handed to `CVPixelBufferPoolCreate`. */
  datatype PoolAttributes = PoolAttributes(
    width: Int,
    height: Int,
    bytesPerRowAlignment: Int,
    pixelFormat: PixelFormat,
    cgImageCompatible: bool,
    cgBitmapContextCompatible: bool,
    ioSurfaceBacked: bool)

  /** The CoreVideo and CoreMedia constructors `make` calls. Each may fail,
      which the source sees as `nil`. */
  datatype CoreMedia = CoreMedia(
    createPixelBufferPool: PoolAttributes -> Option<PixelBufferPool>,
    createPixelBuffer: PixelBufferPool -> Option<PixelBuffer>,
    createFormatDescription: PixelBuffer -> Option<FormatDescription>,
    createSampleBuffer: (PixelBuffer, FormatDescription, SampleTimingInfo) -> Option<SampleBuffer>)

  /** Reads the rest of a cache key, `before` being the text already read
      ahead of the first comma. */
  function ParseKeyFrom(before: string, rest: string): Option<(int, int)>
    decreases |rest|
  {
    if rest == [] then None
    else if rest[0] == ',' then
      if Decimal.IsDecimal(before) && Decimal.IsDecimal(rest[1..])
      then Some((Decimal.DecimalToInt(before), Decimal.DecimalToInt(rest[1..])))
      else None
    else ParseKeyFrom(before + [rest[0]], rest[1..])
  }

  /** Reads a cache key back into the size it names, splitting at the first
      comma; `None` for a string that is not a key. */
  function ParsePixelBufferPoolDictionaryKey(key: string): Option<(int, int)> {
    ParseKeyFrom([], key)
  }

  /** Reading `a + "," + b` after `before` splits at the comma following
      `a` when `a` holds none. */
  lemma {:induction false} ParseKeyFromJoined(before: string, a: string, b: string)
    requires forall j :: 0 <= j < |a| ==> a[j] != ','
    ensures ParseKeyFrom(before, a + "," + b)
         == if Decimal.IsDecimal(before + a) && Decimal.IsDecimal(b)
            then Some((Decimal.DecimalToInt(before + a), Decimal.DecimalToInt(b)))
            else None
    decreases |a|
  {
    var rest := a + "," + b;
    if a == [] {
      assert rest[1..] == b;
      assert before + a == before;
    } else {
      assert rest[0] == a[0] && rest[1..] == a[1..] + "," + b;
      ParseKeyFromJoined(before + [a[0]], a[1..], b);
      assert before + [a[0]] + a[1..] == before + a;
    }
  }

  /** `makePixelBufferPoolDictionaryKey(width:height:)`: the key reads back as
      the size it was made from. */
  function PixelBufferPoolDictionaryKey(width: int, height: int): (key: string)
    ensures ParsePixelBufferPoolDictionaryKey(key) == Some((width, height))
  {
    var a, b := Decimal.IntToDecimal(width), Decimal.IntToDecimal(height);
    forall j | 0 <= j < |a| ensures a[j] != ',' {
      Decimal.DecimalHasNoComma(a, j);
    }
    ParseKeyFromJoined([], a, b);
    assert [] + a == a;
    Decimal.IntToDecimalRoundTrip(width);
    Decimal.IntToDecimalRoundTrip(height);
    a + "," + b
  }

  /** Distinct sizes get distinct keys, so no two sizes share a pool. */
  lemma PixelBufferPoolDictionaryKeyInjective(w1: int, h1: int, w2: int, h2: int)
    ensures PixelBufferPoolDictionaryKey(w1, h1) == PixelBufferPoolDictionaryKey(w2, h2)
        <==> w1 == w2 && h1 == h2
  {
    if PixelBufferPoolDictionaryKey(w1, h1) == PixelBufferPoolDictionaryKey(w2, h2) {
      assert Some((w1, h1)) == Some((w2, h2));
    }
  }

  /** `makePixelBufferPool(width:height:)`'s attributes. `width * 4` is Swift
      `Int` arithmetic and traps on overflow. */
  function PixelBufferPoolAttributes(width: Int, height: Int): (a: PoolAttributes)
    requires IsInt(width * 4)
    ensures a.width == width && a.height == height
    ensures a.bytesPerRowAlignment == a.width * BytesPerPixel(a.pixelFormat)
    // `PixelFormat` has only the one format the example asks for, so this
    // clause documents the attribute rather than constraining it.
    ensures a.pixelFormat == ARGB32
    ensures a.cgImageCompatible && a.cgBitmapContextCompatible && a.ioSurfaceBacked
  {
    PoolAttributes(width, height, width * 4, ARGB32, true, true, true)
  }

  /** The pool cache after `make`'s lookup: a pool is created only when the
      size's key is absent, and stored only when creation succeeds. */
  function CachedPools(pools: map<string, PixelBufferPool>, width: Int, height: Int,
                       createPool: PoolAttributes -> Option<PixelBufferPool>): (pools': map<string, PixelBufferPool>)
    requires PixelBufferPoolDictionaryKey(width, height) !in pools ==> IsInt(width * 4)
    ensures forall k :: k in pools ==> k in pools' && pools'[k] == pools[k]
    ensures pools'.Keys <= pools.Keys + {PixelBufferPoolDictionaryKey(width, height)}
    ensures PixelBufferPoolDictionaryKey(width, height) in pools'
        <==> PixelBufferPoolDictionaryKey(width, height) in pools
             || createPool(PixelBufferPoolAttributes(width, height)).Some?
    ensures PixelBufferPoolDictionaryKey(width, height) !in pools
            && createPool(PixelBufferPoolAttributes(width, height)).Some?
        ==> pools'[PixelBufferPoolDictionaryKey(width, height)]
            == createPool(PixelBufferPoolAttributes(width, height)).value
  {
    var key := PixelBufferPoolDictionaryKey(width, height);
    if key in pools then pools
    else
      match createPool(PixelBufferPoolAttributes(width, height))
      case None => pools
      case Some(pool) => pools[key := pool]
  }

  /** The timing `make` gives its sample buffer: one frame at `refreshRate`,
      decoded when it is presented. `CMTimeScale(refreshRate)` traps unless
      `refreshRate` fits 32 bits. */
  function SampleTiming(refreshRate: Int, presentationTimeStamp: CMTime): (t: SampleTimingInfo)
    requires IsInt32(refreshRate)
    ensures t.presentationTimeStamp == presentationTimeStamp
    ensures t.decodeTimeStamp == t.presentationTimeStamp
    ensures refreshRate > 0 ==>
              t.duration.timescale > 0 && t.duration.Seconds() * refreshRate as real == 1.0
  {
    SampleTimingInfo(CMTime(1, refreshRate), presentationTimeStamp, presentationTimeStamp)
  }

  /** Whether `make`, holding `pool`, gets a pixel buffer and a format
      description, and so goes on to build the sample timing. */
  predicate ReachesSampleTiming(pool: PixelBufferPool, media: CoreMedia) {
    && media.createPixelBuffer(pool).Some?
    && media.createFormatDescription(media.createPixelBuffer(pool).value).Some?
  }

  /** The rest of `make` once a pool is in hand: a pixel buffer from the pool,
      its format description, and a ready sample buffer over both. */
  function SampleBufferFromPool(pool: PixelBufferPool, presentationTimeStamp: CMTime,
                                refreshRate: Int, media: CoreMedia): (r: Option<SampleBuffer>)
    requires ReachesSampleTiming(pool, media) ==> IsInt32(refreshRate)
    ensures r.Some? ==> ReachesSampleTiming(pool, media)
    ensures ReachesSampleTiming(pool, media) ==>
              var pixelBuffer := media.createPixelBuffer(pool).value;
              r == media.createSampleBuffer(
                     pixelBuffer,
                     media.createFormatDescription(pixelBuffer).value,
                     SampleTiming(refreshRate, presentationTimeStamp))
  {
    match media.createPixelBuffer(pool)
    case None => None
    case Some(pixelBuffer) =>
      match media.createFormatDescription(pixelBuffer)
      case None => None
      case Some(formatDescription) =>
        media.createSampleBuffer(pixelBuffer, formatDescription,
                                 SampleTiming(refreshRate, presentationTimeStamp))
  }

  /** Whatever key-to-size record is kept beside the cache, a size's key
      names that size and no other: the pool under it was made for it. */
  lemma PoolKeyDeterminesSize(sizes: map<string, Size>, width: int, height: int)
    requires forall k :: k in sizes ==> PixelBufferPoolDictionaryKey(sizes[k].width, sizes[k].height) == k
    requires PixelBufferPoolDictionaryKey(width, height) in sizes
    ensures sizes[PixelBufferPoolDictionaryKey(width, height)] == Size(width, height)
  {
    var s := sizes[PixelBufferPoolDictionaryKey(width, height)];
    PixelBufferPoolDictionaryKeyInjective(s.width, s.height, width, height);
  }

  class CMSampleBufferFactory {
    /** `pixelBufferPoolDictionary`. */
    var pools: map<string, PixelBufferPool>
    /** For each cached key, the size whose pool it holds. */
    ghost var sizes: map<string, Size>
    /** Every attributes dictionary `make` has passed to `CVPixelBufferPoolCreate`. */
    ghost var poolRequests: seq<PoolAttributes>

    ghost predicate Valid()
      reads this
    {
      && sizes.Keys == pools.Keys
      && forall k :: k in sizes ==> PixelBufferPoolDictionaryKey(sizes[k].width, sizes[k].height) == k
    }

    constructor ()
      ensures Valid() && pools == map[] && poolRequests == []
    {
      pools := map[];
      sizes := map[];
      poolRequests := [];
    }

    /** `make(width:height:presentationTimeStamp:refreshRate:)`. */
    method Make(width: Int, height: Int, presentationTimeStamp: CMTime, refreshRate: Int, media: CoreMedia)
      returns (sampleBuffer: Option<SampleBuffer>)
      requires Valid()
      requires PixelBufferPoolDictionaryKey(width, height) !in pools ==> IsInt(width * 4)
      requires var pools' := CachedPools(pools, width, height, media.createPixelBufferPool);
               PixelBufferPoolDictionaryKey(width, height) in pools'
               && ReachesSampleTiming(pools'[PixelBufferPoolDictionaryKey(width, height)], media)
               ==> IsInt32(refreshRate)
      modifies this
      ensures Valid()
      ensures pools == CachedPools(old(pools), width, height, media.createPixelBufferPool)
      ensures poolRequests == old(poolRequests)
              + if PixelBufferPoolDictionaryKey(width, height) in old(pools) then []
                else [PixelBufferPoolAttributes(width, height)]
      ensures PixelBufferPoolDictionaryKey(width, height) in pools ==>
                sizes[PixelBufferPoolDictionaryKey(width, height)] == Size(width, height)
      ensures sampleBuffer ==
                if PixelBufferPoolDictionaryKey(width, height) in pools
                then SampleBufferFromPool(pools[PixelBufferPoolDictionaryKey(width, height)],
                                          presentationTimeStamp, refreshRate, media)
                else None
    {
      var key := PixelBufferPoolDictionaryKey(width, height);

      if key !in pools {
        var attributes := PixelBufferPoolAttributes(width, height);
        poolRequests := poolRequests + [attributes];
        var created := media.createPixelBufferPool(attributes);
        if created.Some? {
          pools := pools[key := created.value];
          sizes := sizes[key := Size(width, height)];
        }
      }
      assert pools == CachedPools(old(pools), width, height, media.createPixelBufferPool);
      if key !in pools {
        return None;
      }
      var pool := pools[key];
      PoolKeyDeterminesSize(sizes, width, height);

      var pixelBuffer := media.createPixelBuffer(pool);
      if pixelBuffer.None? {
        return None;
      }

      var formatDescription := media.createFormatDescription(pixelBuffer.value);
      if formatDescription.None? {
        return None;
      }

      var sampleTiming := SampleTiming(refreshRate, presentationTimeStamp);
      sampleBuffer := media.createSampleBuffer(pixelBuffer.value, formatDescription.value, sampleTiming);
    }
  }
}
