/**
 * The bookkeeping of the tiny-skia window compositor: the surface it keeps per
 * window, how it picks the damaged region of a frame, when it skips a frame,
 * what it hands to the window system, and how a screenshot is repacked.
 * Drawing itself (`Backend::draw`), the damage computations (`damage::list` and
 * `damage::group`) and the window-system calls are parameters.
 */
module TinySkiaCompositor {
  import opened Wrappers
  import opened Core

  const U32Max: nat := 0xFFFF_FFFF

  type U32 = n: nat | n <= U32Max

  /** An RGBA colour in linear components. */
  datatype Color = Color(r: real, g: real, b: real, a: real)

  /** `Color::BLACK`. */
  const Black: Color := Color(0.0, 0.0, 0.0, 1.0)

  /** The clip mask, which only records its size here. */
  datatype Mask = Mask(width: U32, height: U32)

  /** The viewport of a frame: its physical size in pixels, its scale factor and its logical size. */
  datatype Viewport = Viewport(physicalWidth: U32, physicalHeight: U32, scaleFactor: real, logicalSize: Size)

  /** A damage rectangle as the window system takes it: integer origin, non-zero integer size. */
  datatype SoftRect = SoftRect(x: U32, y: U32, width: U32, height: U32)

  /** One frame handed to the window system: the pixels and the damaged rectangles. */
  datatype Frame = Frame(pixels: seq<bv32>, damage: seq<SoftRect>)

  /** The value of a `Surface`, with the window-system side reduced to its size and the frames it was given. */
  datatype SurfaceState<P> = SurfaceState(
    buffer: seq<bv32>,
    clipMask: Mask,
    primitives: Option<seq<P>>,
    backgroundColor: Color,
    windowSize: Option<(U32, U32)>,
    presented: seq<Frame>)

  /**
   * `SurfaceError`, plus two panics: the `expect` on the pixel map, and `copy_from_slice`
   * when the window's buffer and the surface's buffer differ in length.
   */
  datatype PresentResult = Ok | InvalidDimensions | ResizeError | PresentError(message: string) | PixmapPanic | CopyPanic

  /**
   * The outcomes of the calls into tiny-skia and softbuffer during one `present`:
   * whether the pixel map over the buffer can be made, whether the window resize and
   * `buffer_mut` succeed, and the error `present_with_damage` reports, if any.
   */
  datatype Platform = Platform(pixmapOk: bool, resizeOk: bool, bufferOk: bool, presentError: Option<string>)

  /** `Vec::resize(n, 0)`: the first `n` old pixels, padded with zeros. */
  function Resize(b: seq<bv32>, n: nat): (r: seq<bv32>)
    ensures |r| == n
    ensures forall i :: 0 <= i < n ==> r[i] == if i < |b| then b[i] else 0
  {
    if n <= |b| then b[..n] else b + seq(n - |b|, _ => 0)
  }

  /** `w * h` in `u32` with wrap-around, as `configure_surface` computes the buffer length. */
  function WrappingMul(w: U32, h: U32): (r: U32)
    ensures w * h <= U32Max ==> r == w * h
    ensures (w * h - r) % (U32Max + 1) == 0
  {
    (w * h) % (U32Max + 1)
  }

  /** The surface `create_surface` makes: a zeroed buffer of `w × h` pixels, no stored frame, a black background. */
  function Created<P>(w: U32, h: U32): (s: SurfaceState<P>)
    ensures |s.buffer| == w * h && forall i :: 0 <= i < |s.buffer| ==> s.buffer[i] == 0
    ensures s.clipMask == Mask(w, h) && s.primitives == None && s.backgroundColor == Black
  {
    SurfaceState(seq(w * h, _ => 0), Mask(w, h), None, Black, None, [])
  }

  /** `configure_surface` as written: the buffer length is the wrapped `u32` product. */
  function ConfiguredAsWritten<P>(s: SurfaceState<P>, w: U32, h: U32): (t: SurfaceState<P>)
    ensures |t.buffer| == WrappingMul(w, h)
    ensures forall i :: 0 <= i < |t.buffer| ==> t.buffer[i] == if i < |s.buffer| then s.buffer[i] else 0
    ensures t.clipMask == Mask(w, h) && t.primitives == None
    ensures t.backgroundColor == s.backgroundColor && t.windowSize == s.windowSize && t.presented == s.presented
  {
    s.(buffer := Resize(s.buffer, WrappingMul(w, h)), clipMask := Mask(w, h), primitives := None)
  }

  /** `configure_surface` with the full product, the length `create_surface` uses. */
  function Configured<P>(s: SurfaceState<P>, w: U32, h: U32): (t: SurfaceState<P>)
    ensures |t.buffer| == w * h
    ensures forall i :: 0 <= i < w * h ==> t.buffer[i] == if i < |s.buffer| then s.buffer[i] else 0
    ensures t.clipMask == Mask(w, h) && t.primitives == None
    ensures t.backgroundColor == s.backgroundColor && t.windowSize == s.windowSize && t.presented == s.presented
  {
    s.(buffer := Resize(s.buffer, w * h), clipMask := Mask(w, h), primitives := None)
  }

  /** The two agree whenever the product fits in 32 bits. */
  lemma ConfiguredAgreesBelowWrap<P>(s: SurfaceState<P>, w: U32, h: U32)
    requires w * h <= U32Max
    ensures ConfiguredAsWritten(s, w, h) == Configured(s, w, h)
  {
  }

  /** A 65536 × 65536 surface: `create_surface` gives 2^32 pixels, the as-written `configure_surface` none. */
  lemma ConfiguredAsWrittenLosesBuffer<P>(s: SurfaceState<P>)
    ensures |Created<P>(65536, 65536).buffer| == 0x1_0000_0000
    ensures |ConfiguredAsWritten(s, 65536, 65536).buffer| == 0
    ensures |Configured(s, 65536, 65536).buffer| == 0x1_0000_0000
  {
    assert WrappingMul(65536, 65536) == 0;
  }

  /** Configuring to the size a surface was created with keeps its zero buffer and forgets no frame it never had. */
  lemma ConfigureSameSize<P>(w: U32, h: U32)
    ensures Configured(Created<P>(w, h), w, h) == Created<P>(w, h)
  {
    var s := Created<P>(w, h);
    assert Configured(s, w, h).buffer == s.buffer;
  }

  /**
   * The damage of a frame: the whole logical viewport when no primitives are stored or
   * the background changed, the difference `list` reports otherwise.
   */
  function ChooseDamage<P>(stored: Option<seq<P>>, storedBackground: Color, primitives: seq<P>, background: Color,
                           logicalSize: Size, list: (seq<P>, seq<P>) -> seq<Rectangle>): (damage: seq<Rectangle>)
    ensures stored.None? || storedBackground != background ==> damage == [WithSize(logicalSize)]
    ensures stored.Some? && storedBackground == background ==> damage == list(stored.value, primitives)
  {
    if stored.Some? && storedBackground == background then list(stored.value, primitives)
    else [WithSize(logicalSize)]
  }

  /** `f32 as u32`: truncation toward zero that saturates at both ends. */
  function TruncateU32(v: real): (n: U32)
    ensures n == 0 <==> v < 1.0
    ensures 1.0 <= v < (U32Max + 1) as real ==> n as real <= v < n as real + 1.0
    ensures v >= (U32Max + 1) as real ==> n == U32Max
  {
    if v < 1.0 then 0 else if v >= (U32Max + 1) as real then U32Max else v.Floor
  }

  /** The window-system rectangle for a damage rectangle, or none when its truncated width or height is zero. */
  function ToSoftRect(r: Rectangle): (s: Option<SoftRect>)
    ensures s.Some? <==> r.width >= 1.0 && r.height >= 1.0
    ensures s.Some? ==> s.value.width > 0 && s.value.height > 0
    ensures s.Some? ==> s.value == SoftRect(TruncateU32(r.x), TruncateU32(r.y), TruncateU32(r.width), TruncateU32(r.height))
  {
    var width := TruncateU32(r.width);
    var height := TruncateU32(r.height);
    if width == 0 || height == 0 then None
    else Some(SoftRect(TruncateU32(r.x), TruncateU32(r.y), width, height))
  }

  /** The `filter_map` over the grouped damage. */
  function SoftDamage(rs: seq<Rectangle>): (out: seq<SoftRect>)
    ensures |out| <= |rs|
    ensures forall i :: 0 <= i < |out| ==> out[i].width > 0 && out[i].height > 0
  {
    if rs == [] then []
    else
      var head := ToSoftRect(rs[0]);
      (if head.Some? then [head.value] else []) + SoftDamage(rs[1..])
  }

  /** Filtering distributes over concatenation, so kept rectangles stay in their order. */
  lemma {:induction false} SoftDamageAppend(a: seq<Rectangle>, b: seq<Rectangle>)
    ensures SoftDamage(a + b) == SoftDamage(a) + SoftDamage(b)
    decreases |a|
  {
    if a == [] {
      assert a + b == b;
    } else {
      assert (a + b)[0] == a[0];
      assert (a + b)[1..] == a[1..] + b;
      SoftDamageAppend(a[1..], b);
    }
  }

  /** Every rectangle is handed on exactly when each is at least one pixel wide and high. */
  lemma {:induction false} SoftDamageKeeps(rs: seq<Rectangle>)
    ensures (forall i :: 0 <= i < |rs| ==> rs[i].width >= 1.0 && rs[i].height >= 1.0) <==> |SoftDamage(rs)| == |rs|
    ensures |SoftDamage(rs)| == |rs| ==> forall i :: 0 <= i < |rs| ==> SoftDamage(rs)[i] == ToSoftRect(rs[i]).value
    ensures (forall i :: 0 <= i < |rs| ==> rs[i].width < 1.0 || rs[i].height < 1.0) <==> SoftDamage(rs) == []
    decreases |rs|
  {
    if rs != [] {
      SoftDamageKeeps(rs[1..]);
      assert forall i :: 1 <= i < |rs| ==> rs[i] == rs[1..][i - 1];
    }
  }

  /**
   * The free function `present` on surface values. `draw` is `Backend::draw` giving the new
   * pixels; `list` and `group` are `damage::list` and `damage::group`.
   */
  function AfterPresent<P>(s: SurfaceState<P>, primitives: seq<P>, viewport: Viewport, background: Color, env: Platform,
                      draw: (seq<bv32>, seq<P>, seq<Rectangle>, Color) -> seq<bv32>,
                      list: (seq<P>, seq<P>) -> seq<Rectangle>,
                      group: (seq<Rectangle>, real, U32, U32) -> seq<Rectangle>): (res: (SurfaceState<P>, PresentResult))
    ensures res.1 == PixmapPanic ==> res.0 == s
    ensures res.0.clipMask == s.clipMask
    ensures res.0.presented == s.presented || (res.1 == Ok && |res.0.presented| == |s.presented| + 1
                                               && res.0.presented[..|s.presented|] == s.presented)
  {
    if !env.pixmapOk then (s, PixmapPanic)
    else
      var damage := ChooseDamage(s.primitives, s.backgroundColor, primitives, background, viewport.logicalSize, list);
      if damage == [] then (s, Ok)
      else
        var grouped := group(damage, viewport.scaleFactor, viewport.physicalWidth, viewport.physicalHeight);
        var drawn := s.(primitives := Some(primitives), backgroundColor := background,
                        buffer := draw(s.buffer, primitives, grouped, background));
        if viewport.physicalWidth == 0 || viewport.physicalHeight == 0 then (drawn, InvalidDimensions)
        else if !env.resizeOk then (drawn, ResizeError)
        else
          var resized := drawn.(windowSize := Some((viewport.physicalWidth, viewport.physicalHeight)));
          if !env.bufferOk then (resized, Ok)
          else if |drawn.buffer| != viewport.physicalWidth * viewport.physicalHeight then (resized, CopyPanic)
          else if env.presentError.Some? then (resized, PresentError(env.presentError.value))
          else (resized.(presented := resized.presented + [Frame(drawn.buffer, SoftDamage(grouped))]), Ok)
  }

  /** Empty damage: nothing stored, nothing drawn, nothing presented. */
  lemma EmptyDamageSkips<P>(s: SurfaceState<P>, primitives: seq<P>, viewport: Viewport, background: Color, env: Platform,
                            draw: (seq<bv32>, seq<P>, seq<Rectangle>, Color) -> seq<bv32>,
                            list: (seq<P>, seq<P>) -> seq<Rectangle>,
                            group: (seq<Rectangle>, real, U32, U32) -> seq<Rectangle>)
    requires env.pixmapOk
    requires ChooseDamage(s.primitives, s.backgroundColor, primitives, background, viewport.logicalSize, list) == []
    ensures AfterPresent(s, primitives, viewport, background, env, draw, list, group) == (s, Ok)
  {
  }

  /**
   * Non-empty damage stores the primitives and background before anything can fail,
   * so they stay stored even when the result is an error; a zero physical dimension is
   * `InvalidDimensions` after that update, and only a fully successful present adds a frame.
   */
  lemma NonEmptyDamageStores<P>(s: SurfaceState<P>, primitives: seq<P>, viewport: Viewport, background: Color, env: Platform,
                                draw: (seq<bv32>, seq<P>, seq<Rectangle>, Color) -> seq<bv32>,
                                list: (seq<P>, seq<P>) -> seq<Rectangle>,
                                group: (seq<Rectangle>, real, U32, U32) -> seq<Rectangle>)
    requires env.pixmapOk
    requires ChooseDamage(s.primitives, s.backgroundColor, primitives, background, viewport.logicalSize, list) != []
    ensures var (t, r) := AfterPresent(s, primitives, viewport, background, env, draw, list, group);
      && t.primitives == Some(primitives) && t.backgroundColor == background
      && (viewport.physicalWidth == 0 || viewport.physicalHeight == 0 <==> r == InvalidDimensions)
      && (|t.presented| == |s.presented| + 1 <==> r == Ok && env.resizeOk && env.bufferOk)
      && (r == CopyPanic <==> viewport.physicalWidth > 0 && viewport.physicalHeight > 0 && env.resizeOk && env.bufferOk
                               && |t.buffer| != viewport.physicalWidth * viewport.physicalHeight)
      && (r == Ok ==> env.resizeOk)
      && t.clipMask == s.clipMask
  {
  }

  /** The pixel map panics exactly when it cannot be made, and the surface is then left as it was. */
  lemma PixmapPanicOnlyWithoutPixmap<P>(s: SurfaceState<P>, primitives: seq<P>, viewport: Viewport, background: Color, env: Platform,
                                        draw: (seq<bv32>, seq<P>, seq<Rectangle>, Color) -> seq<bv32>,
                                        list: (seq<P>, seq<P>) -> seq<Rectangle>,
                                        group: (seq<Rectangle>, real, U32, U32) -> seq<Rectangle>)
    ensures var (t, r) := AfterPresent(s, primitives, viewport, background, env, draw, list, group);
      && (r == PixmapPanic <==> !env.pixmapOk)
      && (r == PixmapPanic ==> t == s)
  {
  }

  /**
   * A pixel-map outcome that agrees with what tiny-skia needs of it: the map can only
   * be made over a non-empty size whose pixels fit in the buffer.
   */
  predicate PixmapConsistent<P>(s: SurfaceState<P>, viewport: Viewport, env: Platform)
  {
    env.pixmapOk ==> viewport.physicalWidth > 0 && viewport.physicalHeight > 0
                     && |s.buffer| >= viewport.physicalWidth * viewport.physicalHeight
  }

  /**
   * With such an outcome, a zero dimension panics at the pixel map before the resize
   * can report it, so `InvalidDimensions` is never returned.
   */
  lemma ConsistentPixmapNeverInvalid<P>(s: SurfaceState<P>, primitives: seq<P>, viewport: Viewport, background: Color, env: Platform,
                                        draw: (seq<bv32>, seq<P>, seq<Rectangle>, Color) -> seq<bv32>,
                                        list: (seq<P>, seq<P>) -> seq<Rectangle>,
                                        group: (seq<Rectangle>, real, U32, U32) -> seq<Rectangle>)
    requires PixmapConsistent(s, viewport, env)
    ensures var r := AfterPresent(s, primitives, viewport, background, env, draw, list, group).1;
      && r != InvalidDimensions
      && (viewport.physicalWidth == 0 || viewport.physicalHeight == 0 ==> r == PixmapPanic)
  {
  }

  /** A presented frame carries the drawn pixels and the grouped damage, minus the rectangles under a pixel wide or high. */
  lemma PresentedFrame<P>(s: SurfaceState<P>, primitives: seq<P>, viewport: Viewport, background: Color, env: Platform,
                          draw: (seq<bv32>, seq<P>, seq<Rectangle>, Color) -> seq<bv32>,
                          list: (seq<P>, seq<P>) -> seq<Rectangle>,
                          group: (seq<Rectangle>, real, U32, U32) -> seq<Rectangle>)
    requires |AfterPresent(s, primitives, viewport, background, env, draw, list, group).0.presented| > |s.presented|
    ensures var (t, r) := AfterPresent(s, primitives, viewport, background, env, draw, list, group);
      var damage := ChooseDamage(s.primitives, s.backgroundColor, primitives, background, viewport.logicalSize, list);
      var grouped := group(damage, viewport.scaleFactor, viewport.physicalWidth, viewport.physicalHeight);
      && r == Ok
      && |t.buffer| == viewport.physicalWidth * viewport.physicalHeight
      && t.presented == s.presented + [Frame(t.buffer, SoftDamage(grouped))]
      && t.buffer == draw(s.buffer, primitives, grouped, background)
      && t.windowSize == Some((viewport.physicalWidth, viewport.physicalHeight))
  {
  }

  /** A fresh or reconfigured surface repaints the whole logical viewport. */
  lemma FreshSurfaceRepaintsAll<P>(s: SurfaceState<P>, w: U32, h: U32, primitives: seq<P>, background: Color,
                                   logicalSize: Size, list: (seq<P>, seq<P>) -> seq<Rectangle>)
    ensures ChooseDamage(Created<P>(w, h).primitives, Black, primitives, background, logicalSize, list) == [WithSize(logicalSize)]
    ensures var t := Configured(s, w, h);
      ChooseDamage(t.primitives, t.backgroundColor, primitives, background, logicalSize, list) == [WithSize(logicalSize)]
  {
  }

  /**
   * After a frame with non-empty damage, the next frame with the same background is
   * diffed against it, and repeating it unchanged is skipped when `list` reports no
   * difference between a frame and itself.
   */
  lemma {:induction false} NextFrameDiffs<P>(s: SurfaceState<P>, first: seq<P>, second: seq<P>, viewport: Viewport, background: Color,
                                             env1: Platform, env2: Platform,
                                             draw: (seq<bv32>, seq<P>, seq<Rectangle>, Color) -> seq<bv32>,
                                             list: (seq<P>, seq<P>) -> seq<Rectangle>,
                                             group: (seq<Rectangle>, real, U32, U32) -> seq<Rectangle>)
    requires env1.pixmapOk
    requires ChooseDamage(s.primitives, s.backgroundColor, first, background, viewport.logicalSize, list) != []
    ensures var (t, _) := AfterPresent(s, first, viewport, background, env1, draw, list, group);
      && ChooseDamage(t.primitives, t.backgroundColor, second, background, viewport.logicalSize, list) == list(first, second)
      && (env2.pixmapOk && list(first, first) == [] ==>
            AfterPresent(t, first, viewport, background, env2, draw, list, group) == (t, Ok))
  {
    var (t, _) := AfterPresent(s, first, viewport, background, env1, draw, list, group);
    NonEmptyDamageStores(s, first, viewport, background, env1, draw, list, group);
    if env2.pixmapOk && list(first, first) == [] {
      EmptyDamageSkips(t, first, viewport, background, env2, draw, list, group);
    }
  }

  /** One pixel `0xAARRGGBB` as the bytes `[r, g, b, a]`. */
  function PixelBytes(p: bv32): (r: seq<bv8>)
    ensures |r| == 4
  {
    [((p & 0x00FF_0000) >> 16) as bv8, ((p & 0x0000_FF00) >> 8) as bv8, (p & 0x0000_00FF) as bv8, ((p & 0xFF00_0000) >> 24) as bv8]
  }

  /** The screenshot fold: every pixel's bytes, in pixel order. */
  function Repack(pixels: seq<bv32>): (bytes: seq<bv8>)
    ensures |bytes| == 4 * |pixels|
  {
    if pixels == [] then [] else PixelBytes(pixels[0]) + Repack(pixels[1..])
  }

  /** Byte `4i + k` of the screenshot is byte `k` of pixel `i`. */
  lemma {:induction false} RepackIndex(pixels: seq<bv32>, i: nat, k: nat)
    requires i < |pixels| && k < 4
    ensures Repack(pixels)[4 * i + k] == PixelBytes(pixels[i])[k]
    decreases i
  {
    if i > 0 {
      RepackIndex(pixels[1..], i - 1, k);
    }
  }

  /** Four `[r, g, b, a]` bytes back into an ARGB pixel. */
  function PackPixel(r: bv8, g: bv8, b: bv8, a: bv8): bv32
  {
    ((a as bv32) << 24) | ((r as bv32) << 16) | ((g as bv32) << 8) | (b as bv32)
  }

  lemma PixelRoundTrip(p: bv32)
    ensures var bs := PixelBytes(p); PackPixel(bs[0], bs[1], bs[2], bs[3]) == p
  {
  }

  /** The inverse of the screenshot repacking. */
  function Unpack(bytes: seq<bv8>): (pixels: seq<bv32>)
    requires |bytes| % 4 == 0
    ensures |pixels| == |bytes| / 4
  {
    if bytes == [] then [] else [PackPixel(bytes[0], bytes[1], bytes[2], bytes[3])] + Unpack(bytes[4..])
  }

  /** Repacking loses nothing: the pixels can be read back from the screenshot. */
  lemma {:induction false} UnpackRepack(pixels: seq<bv32>)
    ensures Unpack(Repack(pixels)) == pixels
  {
    if pixels != [] {
      var bytes := Repack(pixels);
      assert bytes[4..] == Repack(pixels[1..]);
      PixelRoundTrip(pixels[0]);
      UnpackRepack(pixels[1..]);
    }
  }

  /**
   * `screenshot`: draw the primitives into a zeroed offscreen buffer of the physical size,
   * with the whole physical area as damage, and repack it. `pixmapOk` is whether the
   * offscreen pixel map can be made; `None` is the panic of its `expect`.
   */
  function Screenshot<P>(primitives: seq<P>, viewport: Viewport, background: Color, pixmapOk: bool,
                         draw: (seq<bv32>, seq<P>, seq<Rectangle>, Color) -> seq<bv32>): (bytes: Option<seq<bv8>>)
    ensures bytes.None? <==> !pixmapOk
    ensures bytes.Some? ==> var w := viewport.physicalWidth; var h := viewport.physicalHeight;
      var pixels := draw(seq(w * h, _ => 0), primitives, [Rectangle(0.0, 0.0, w as real, h as real)], background);
      |bytes.value| == 4 * |pixels| && Unpack(bytes.value) == pixels
  {
    if !pixmapOk then None
    else
      var w := viewport.physicalWidth;
      var h := viewport.physicalHeight;
      var pixels := draw(seq(w * h, _ => 0), primitives, [WithSize(Size(w as real, h as real))], background);
      UnpackRepack(pixels);
      Some(Repack(pixels))
  }

  /** A window's surface, updated in place by the compositor. */
  class Surface<P> {
    var buffer: seq<bv32>
    var clipMask: Mask
    var primitives: Option<seq<P>>
    var backgroundColor: Color
    var windowSize: Option<(U32, U32)>
    var presented: seq<Frame>

    function Value(): SurfaceState<P>
      reads this
    {
      SurfaceState(buffer, clipMask, primitives, backgroundColor, windowSize, presented)
    }

    /** `create_surface`. */
    constructor (width: U32, height: U32)
      ensures Value() == Created(width, height)
    {
      buffer := seq(width * height, _ => 0);
      clipMask := Mask(width, height);
      primitives := None;
      backgroundColor := Black;
      windowSize := None;
      presented := [];
    }

    /** `configure_surface`, with the buffer length the full product of the dimensions. */
    method Configure(width: U32, height: U32)
      modifies this
      ensures Value() == Configured(old(Value()), width, height)
    {
      buffer := Resize(buffer, width * height);
      clipMask := Mask(width, height);
      primitives := None;
    }

    /** The free function `present`, acting on this surface. */
    method Present(primitives': seq<P>, viewport: Viewport, background: Color, env: Platform,
                   draw: (seq<bv32>, seq<P>, seq<Rectangle>, Color) -> seq<bv32>,
                   list: (seq<P>, seq<P>) -> seq<Rectangle>,
                   group: (seq<Rectangle>, real, U32, U32) -> seq<Rectangle>) returns (r: PresentResult)
      modifies this
      ensures (Value(), r) == AfterPresent(old(Value()), primitives', viewport, background, env, draw, list, group)
    {
      if !env.pixmapOk {
        return PixmapPanic;
      }
      var damage := ChooseDamage(primitives, backgroundColor, primitives', background, viewport.logicalSize, list);
      if damage == [] {
        return Ok;
      }
      primitives := Some(primitives');
      backgroundColor := background;
      var grouped := group(damage, viewport.scaleFactor, viewport.physicalWidth, viewport.physicalHeight);
      buffer := draw(buffer, primitives', grouped, background);
      if viewport.physicalWidth == 0 || viewport.physicalHeight == 0 {
        return InvalidDimensions;
      }
      if !env.resizeOk {
        return ResizeError;
      }
      windowSize := Some((viewport.physicalWidth, viewport.physicalHeight));
      if env.bufferOk {
        var handed := SoftDamage(grouped);
        if |buffer| != viewport.physicalWidth * viewport.physicalHeight {
          return CopyPanic;
        }
        if env.presentError.Some? {
          return PresentError(env.presentError.value);
        }
        presented := presented + [Frame(buffer, handed)];
      }
      r := Ok;
    }
  }
}
