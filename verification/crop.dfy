/** Crop geometry of the profile-picture cropper.

    The cropper shows an image inside a fixed container. A slider (0..100)
    zooms the image about its centre and pointer drags pan it. When the user
    crops, the display transform is inverted to find the rectangle of the
    image, in natural pixels, that the container shows; that rectangle is
    clamped inside the image and drawn onto a canvas.

    DOM measurements (`clientWidth`, `offsetWidth`, `naturalWidth`, ...) are
    inputs: they are integers in the DOM, so they are `nat` here. Pointer
    coordinates, the pan transform and the pixel ratios are `real`. Canvas
    drawing is not modelled; the result of a crop is the plan it would draw. */
module Crop {
  import opened Wrappers

  function Max(a: real, b: real): real { if a >= b then a else b }
  function Min(a: real, b: real): real { if a <= b then a else b }

  // ---------------------------------------------------------------------
  // Slider and zoom
  // ---------------------------------------------------------------------

  /** The range slider is configured with min 0, max 100 and step 1, so its
      value is always one of these integers. */
  type SliderValue = v: int | 0 <= v <= 100

  /** Zoom factor for a slider value. The slider value can be read back from
      the scale, and the scale never under-fills the image. */
  function Scale(v: SliderValue): (s: real)
    ensures 1.0 <= s <= 2.0
    ensures (s - 1.0) * 100.0 == v as real
  {
    1.0 + v as real / 100.0
  }

  /** A larger slider value zooms in further. */
  lemma ScaleStrictlyIncreasing(v: SliderValue, w: SliderValue)
    requires v < w
    ensures Scale(v) < Scale(w)
  {
  }

  // ---------------------------------------------------------------------
  // Measurements
  // ---------------------------------------------------------------------

  datatype Size = Size(width: nat, height: nat)

  /** The image element: its layout size before transforms (`offsetWidth`,
      `offsetHeight`) and the size of the bitmap (`naturalWidth`,
      `naturalHeight`). */
  datatype ImageElement = ImageElement(offset: Size, natural: Size)

  /** The two React refs the cropper reads: the container (its client size)
      and the image. Either may be unattached. */
  datatype Refs = Refs(container: Option<Size>, image: Option<ImageElement>)

  /** Client size of the container; an unattached ref reads as 0 x 0. */
  function ContainerSize(refs: Refs): Size {
    refs.container.GetOr(Size(0, 0))
  }

  /** Base displayed size of the image; an unattached ref reads as 0 x 0. */
  function BaseSize(refs: Refs): Size {
    if refs.image.Some? then refs.image.value.offset else Size(0, 0)
  }

  datatype Point = Point(x: real, y: real)

  // ---------------------------------------------------------------------
  // Pan limits
  // ---------------------------------------------------------------------

  /** Largest pan offset along one axis: half the amount by which the scaled
      image overflows the container, or 0 when it does not overflow. */
  function AxisLimit(base: nat, container: nat, scale: real): (m: real)
    ensures m >= 0.0
    ensures m == 0.0 <==> base as real * scale <= container as real
    ensures m > 0.0 ==> container as real + 2.0 * m == base as real * scale
  {
    Max(0.0, (base as real * scale - container as real) / 2.0)
  }

  datatype Limits = Limits(maxX: real, maxY: real)

  /** Pan limits for the current refs at zoom `scale`. */
  function PanLimits(refs: Refs, scale: real): (l: Limits)
    ensures 0.0 <= l.maxX && 0.0 <= l.maxY
    ensures refs.image.None? ==> l == Limits(0.0, 0.0)
    ensures l.maxX == 0.0 <==> BaseSize(refs).width as real * scale <= ContainerSize(refs).width as real
    ensures l.maxY == 0.0 <==> BaseSize(refs).height as real * scale <= ContainerSize(refs).height as real
    ensures l.maxX == AxisLimit(BaseSize(refs).width, ContainerSize(refs).width, scale)
    ensures l.maxY == AxisLimit(BaseSize(refs).height, ContainerSize(refs).height, scale)
    ensures refs.container.None? && refs.image.Some? && scale >= 0.0 ==>
      l == Limits(refs.image.value.offset.width as real * scale / 2.0,
                  refs.image.value.offset.height as real * scale / 2.0)
  {
    var c := ContainerSize(refs);
    var b := BaseSize(refs);
    Limits(AxisLimit(b.width, c.width, scale), AxisLimit(b.height, c.height, scale))
  }

  predicate WithinLimits(t: Point, l: Limits) {
    -l.maxX <= t.x <= l.maxX && -l.maxY <= t.y <= l.maxY
  }

  /** With the transform origin at the common centre, an image of extent
      `scaled` shifted by `offset` covers a container of extent `container`
      centred on the same point. */
  predicate Covers(offset: real, scaled: real, container: real) {
    offset - scaled / 2.0 <= -container / 2.0 && container / 2.0 <= offset + scaled / 2.0
  }

  /** The axis limit is exactly the largest shift that keeps the scaled
      image covering the container, whenever it can cover it at all. */
  lemma AxisLimitIsCoverageBound(base: nat, container: nat, scale: real, offset: real)
    requires container as real <= base as real * scale
    ensures var m := AxisLimit(base, container, scale);
      Covers(offset, base as real * scale, container as real) <==> -m <= offset <= m
  {
    var m := AxisLimit(base, container, scale);
    assert 2.0 * m == base as real * scale - container as real;
  }

  /** Both axes: a pan lies within the limits exactly when the scaled image
      still covers the whole container. */
  lemma PanLimitsAreCoverageBounds(refs: Refs, scale: real, t: Point)
    requires ContainerSize(refs).width as real <= BaseSize(refs).width as real * scale
    requires ContainerSize(refs).height as real <= BaseSize(refs).height as real * scale
    ensures WithinLimits(t, PanLimits(refs, scale)) <==>
      && Covers(t.x, BaseSize(refs).width as real * scale, ContainerSize(refs).width as real)
      && Covers(t.y, BaseSize(refs).height as real * scale, ContainerSize(refs).height as real)
  {
    var c := ContainerSize(refs);
    var b := BaseSize(refs);
    var l := PanLimits(refs, scale);
    assert l == Limits(AxisLimit(b.width, c.width, scale), AxisLimit(b.height, c.height, scale));
    AxisLimitIsCoverageBound(b.width, c.width, scale, t.x);
    AxisLimitIsCoverageBound(b.height, c.height, scale, t.y);
    assert WithinLimits(t, l) <==> (-l.maxX <= t.x <= l.maxX && -l.maxY <= t.y <= l.maxY);
  }

  // ---------------------------------------------------------------------
  // Viewport state and pointer handlers
  // ---------------------------------------------------------------------

  /** The cropper's React state: slider value, pan transform and the drag
      origin (null while no drag is in progress). */
  datatype Viewport = Viewport(slider: SliderValue, transform: Point, dragStart: Option<Point>)

  const InitialViewport := Viewport(0, Point(0.0, 0.0), None)

  /** Slider drag: only the slider value changes. The transform is not
      re-clamped to the limits of the new scale. */
  function SliderDragged(vp: Viewport, v: SliderValue): (r: Viewport)
    ensures r.slider == v
    ensures r.transform == vp.transform && r.dragStart == vp.dragStart
  {
    vp.(slider := v)
  }

  /** Pointer down: the drag origin is chosen so that the current transform
      is the pointer minus the origin. */
  function PanStart(vp: Viewport, pointer: Point): (r: Viewport)
    ensures r.dragStart.Some?
    ensures r.dragStart.value.x + vp.transform.x == pointer.x
    ensures r.dragStart.value.y + vp.transform.y == pointer.y
    ensures r.slider == vp.slider && r.transform == vp.transform
  {
    vp.(dragStart := Some(Point(pointer.x - vp.transform.x, pointer.y - vp.transform.y)))
  }

  /** One axis of the pan clamp: an axis whose limit is 0 is locked at 0,
      otherwise the offset is clamped into [-m, m]. */
  function ClampAxis(d: real, m: real): (r: real)
    requires m >= 0.0
    ensures -m <= r <= m
    ensures -m <= d <= m ==> r == d
    ensures d > m ==> r == m
    ensures d < -m ==> r == -m
  {
    if m == 0.0 then 0.0 else Max(-m, Min(m, d))
  }

  /** `PointerEvent.buttons` with only the primary button held. */
  const PrimaryButtonOnly := 1

  /** Pointer move. Nothing changes unless exactly the primary button is held
      and a drag has started; then the transform follows the pointer,
      clamped to the pan limits at the current zoom. */
  function PanMove(vp: Viewport, refs: Refs, pointer: Point, buttons: int): (r: Viewport)
    ensures buttons != PrimaryButtonOnly || vp.dragStart.None? ==> r == vp
    ensures r.slider == vp.slider && r.dragStart == vp.dragStart
    ensures buttons == PrimaryButtonOnly && vp.dragStart.Some? ==>
      WithinLimits(r.transform, PanLimits(refs, Scale(vp.slider)))
    ensures (&& buttons == PrimaryButtonOnly && vp.dragStart.Some?
             && WithinLimits(Point(pointer.x - vp.dragStart.value.x, pointer.y - vp.dragStart.value.y),
                             PanLimits(refs, Scale(vp.slider)))) ==>
      r.transform == Point(pointer.x - vp.dragStart.value.x, pointer.y - vp.dragStart.value.y)
    ensures buttons == PrimaryButtonOnly && vp.dragStart.Some? ==>
      var l := PanLimits(refs, Scale(vp.slider));
      && r.transform.x == ClampAxis(pointer.x - vp.dragStart.value.x, l.maxX)
      && r.transform.y == ClampAxis(pointer.y - vp.dragStart.value.y, l.maxY)
  {
    if buttons != PrimaryButtonOnly || vp.dragStart.None? then vp
    else
      var l := PanLimits(refs, Scale(vp.slider));
      var origin := vp.dragStart.value;
      vp.(transform := Point(ClampAxis(pointer.x - origin.x, l.maxX), ClampAxis(pointer.y - origin.y, l.maxY)))
  }

  /** Pointer up or leave: the drag ends, the transform stays. */
  function PanEnd(vp: Viewport): (r: Viewport)
    ensures r.dragStart.None?
    ensures r.slider == vp.slider && r.transform == vp.transform
  {
    vp.(dragStart := None)
  }

  /** A drag moves the image by the pointer's displacement, as long as the
      target position is within the limits. */
  lemma DragFollowsPointer(vp: Viewport, refs: Refs, from: Point, to: Point)
    requires WithinLimits(Point(vp.transform.x + to.x - from.x, vp.transform.y + to.y - from.y),
                          PanLimits(refs, Scale(vp.slider)))
    ensures PanMove(PanStart(vp, from), refs, to, PrimaryButtonOnly).transform ==
      Point(vp.transform.x + to.x - from.x, vp.transform.y + to.y - from.y)
  {
    var started := PanStart(vp, from);
    var origin := started.dragStart.value;
    assert Point(to.x - origin.x, to.y - origin.y) ==
      Point(vp.transform.x + to.x - from.x, vp.transform.y + to.y - from.y);
  }

  /** At zoom 1, with an image no larger than the container, every pan move
      during a drag leaves the image centred. */
  lemma ScaleOneLocksPan(vp: Viewport, refs: Refs, pointer: Point)
    requires vp.slider == 0 && vp.dragStart.Some?
    requires BaseSize(refs).width <= ContainerSize(refs).width
    requires BaseSize(refs).height <= ContainerSize(refs).height
    ensures PanMove(vp, refs, pointer, PrimaryButtonOnly).transform == Point(0.0, 0.0)
  {
    var l := PanLimits(refs, Scale(0));
    assert l == Limits(0.0, 0.0);
  }

  // ---------------------------------------------------------------------
  // Crop export: sizes
  // ---------------------------------------------------------------------

  /** The options `getCroppedImage` reads for geometry and sizes. The
      circular clip, the format and the quality only affect drawing and
      encoding. */
  datatype CropOptions = CropOptions(
    outWidth: Option<real>,
    outHeight: Option<real>,
    pixelRatio: Option<real>,
    supersample: Option<real>)

  const DefaultOptions := CropOptions(None, None, None, None)

  /** JavaScript's `Math.round` on finite numbers: the nearest integer, with
      halves rounded towards positive infinity. */
  function Round(x: real): (n: int)
    ensures x - 0.5 < n as real <= x + 0.5
  {
    (x + 0.5).Floor
  }

  lemma RoundOfInteger(n: int)
    ensures Round(n as real) == n
  {
  }

  /** Final output length: the requested length, or the container's, rounded
      and never below 1. */
  function OutputLength(requested: Option<real>, measured: nat): (n: int)
    ensures n >= 1
    ensures requested.None? && measured >= 1 ==> n == measured
    ensures requested.GetOr(measured as real) >= 0.5 ==>
      n as real - 0.5 <= requested.GetOr(measured as real) < n as real + 0.5
    ensures requested.GetOr(measured as real) < 0.5 ==> n == 1
  {
    var rounded := Round(requested.GetOr(measured as real));
    if rounded >= 1 then rounded else 1
  }

  /** Device pixel ratio: the option if given; otherwise the window's ratio,
      where a missing window or a ratio of 0 (falsy) reads as 1. The window
      is `None` when there is no `window` object. */
  function DevicePixelRatio(opts: CropOptions, window: Option<real>): (r: real)
    ensures opts.pixelRatio.Some? ==> r == opts.pixelRatio.value
    ensures opts.pixelRatio.None? && window.Some? && window.value != 0.0 ==> r == window.value
    ensures opts.pixelRatio.None? && (window.None? || window.value == 0.0) ==> r == 1.0
  {
    if opts.pixelRatio.Some? then opts.pixelRatio.value
    else if window.Some? && window.value != 0.0 then window.value
    else 1.0
  }

  /** Supersample factor: the option (1 when absent), raised to at least 1. */
  function Supersample(opts: CropOptions): (r: real)
    ensures r >= 1.0
    ensures opts.supersample.Some? && opts.supersample.value >= 1.0 ==> r == opts.supersample.value
    ensures opts.supersample.Some? && opts.supersample.value < 1.0 ==> r == 1.0
    ensures opts.supersample.None? ==> r == 1.0
  {
    Max(1.0, opts.supersample.GetOr(1.0))
  }

  function RenderScale(opts: CropOptions, window: Option<real>): real {
    DevicePixelRatio(opts, window) * Supersample(opts)
  }

  /** Working-canvas length for an output length at a render scale: the
      scaled length rounded to the nearest integer. */
  function RenderLength(out: int, scale: real): (n: int)
    ensures out as real * scale - 0.5 < n as real <= out as real * scale + 0.5
    ensures scale == 1.0 ==> n == out
  {
    RoundOfInteger(out);
    Round(out as real * scale)
  }

  // ---------------------------------------------------------------------
  // Crop export: geometry
  // ---------------------------------------------------------------------

  /** A window of `len` natural pixels, converted to CSS pixels and zoomed
      by `s`, spans exactly `container` CSS pixels. */
  predicate FillsContainer(len: real, container: nat, base: nat, natural: nat, s: real) {
    len * s * base as real == container as real * natural as real
  }

  /** Length, in natural pixels, of the source window along one axis: the
      container length converted to natural pixels and divided by the zoom. */
  function WindowLength(container: nat, base: nat, natural: nat, s: real): (len: real)
    requires base > 0 && s > 0.0
    ensures len >= 0.0
    ensures FillsContainer(len, container, base, natural, s)
  {
    var k := natural as real / base as real;
    assert k * base as real == natural as real;
    (container as real * k) / s
  }

  /** Unclamped start of the source window along one axis: the window is
      centred on the natural coordinate under the container's centre, found
      by undoing the pan and then the zoom about the image centre. */
  function WindowStart(container: nat, base: nat, natural: nat, s: real, t: real): (start: real)
    requires base > 0 && s > 0.0
    ensures natural > 0 ==> DisplayOffset(start, base, natural, s, t) == -(container as real) / 2.0
  {
    var k := natural as real / base as real;
    var len := WindowLength(container, base, natural, s);
    CentredWindowDisplay(container, base, natural, s, t, len);
    natural as real / 2.0 - (t * k) / s - len / 2.0
  }

  /** Forward display transform along one axis: where natural coordinate `p`
      appears, in CSS pixels from the container's centre, when the image is
      zoomed by `s` about its centre and shifted by `t`. */
  function DisplayOffset(p: real, base: nat, natural: nat, s: real, t: real): real
    requires natural > 0
  {
    (p - natural as real / 2.0) * (base as real / natural as real) * s + t
  }

  /** Inverse of the display transform. */
  function NaturalAt(d: real, base: nat, natural: nat, s: real, t: real): real
    requires base > 0 && s > 0.0
  {
    natural as real / 2.0 + (d - t) / s * (natural as real / base as real)
  }

  lemma DisplayRoundTrip(p: real, d: real, base: nat, natural: nat, s: real, t: real)
    requires base > 0 && natural > 0 && s > 0.0
    ensures NaturalAt(DisplayOffset(p, base, natural, s, t), base, natural, s, t) == p
    ensures DisplayOffset(NaturalAt(d, base, natural, s, t), base, natural, s, t) == d
  {
    var k := natural as real / base as real;
    var kInv := base as real / natural as real;
    assert k * kInv == 1.0;
    var u := (p - natural as real / 2.0) * kInv * s;
    assert u / s == (p - natural as real / 2.0) * kInv;
    assert (p - natural as real / 2.0) * kInv * k == p - natural as real / 2.0;
    var w := (d - t) / s;
    assert w * s == d - t;
    assert w * k * kInv == w;
  }

  /** The display transform preserves order: it is a zoom by a positive
      factor followed by a shift. */
  lemma DisplayOffsetMonotone(p: real, q: real, base: nat, natural: nat, s: real, t: real)
    requires base > 0 && natural > 0 && s > 0.0
    ensures p <= q <==> DisplayOffset(p, base, natural, s, t) <= DisplayOffset(q, base, natural, s, t)
  {
    var f := (base as real / natural as real) * s;
    assert f > 0.0;
    assert DisplayOffset(q, base, natural, s, t) - DisplayOffset(p, base, natural, s, t) == (q - p) * f;
  }

  /** The image's edges in display space: natural 0 and natural width sit
      half the scaled base size either side of the pan offset. */
  lemma DisplayOfImageEdges(base: nat, natural: nat, s: real, t: real)
    requires base > 0 && natural > 0 && s > 0.0
    ensures DisplayOffset(0.0, base, natural, s, t) == t - base as real * s / 2.0
    ensures DisplayOffset(natural as real, base, natural, s, t) == t + base as real * s / 2.0
  {
    var kInv := base as real / natural as real;
    assert (natural as real / 2.0) * kInv == base as real / 2.0;
  }

  /** A window of `len` natural pixels that fills the container, centred on
      the natural coordinate under the container's centre, is displayed
      from one edge of the container to the other. */
  lemma CentredWindowDisplay(container: nat, base: nat, natural: nat, s: real, t: real, len: real)
    requires base > 0 && s > 0.0
    requires FillsContainer(len, container, base, natural, s)
    ensures natural > 0 ==>
      var start := natural as real / 2.0 - (t * (natural as real / base as real)) / s - len / 2.0;
      && DisplayOffset(start, base, natural, s, t) == -(container as real) / 2.0
      && DisplayOffset(start + len, base, natural, s, t) == container as real / 2.0
  {
    if natural > 0 {
      var k := natural as real / base as real;
      var kInv := base as real / natural as real;
      assert k * kInv == 1.0;
      assert len * s * kInv == container as real by {
        assert len * s * base as real == container as real * natural as real;
        assert len * s * base as real / natural as real == container as real;
      }
      var start := natural as real / 2.0 - (t * k) / s - len / 2.0;
      var tk := (t * k) / s;
      assert tk * s * kInv == t by {
        assert tk * s == t * k;
      }
      assert start - natural as real / 2.0 == -tk - len / 2.0;
      calc {
        DisplayOffset(start, base, natural, s, t);
        (-tk - len / 2.0) * kInv * s + t;
        -(tk * s * kInv) - (len * s * kInv) / 2.0 + t;
        -(container as real) / 2.0;
      }
      calc {
        DisplayOffset(start + len, base, natural, s, t);
        (-tk + len / 2.0) * kInv * s + t;
        -(tk * s * kInv) + (len * s * kInv) / 2.0 + t;
        container as real / 2.0;
      }
    }
  }

  /** The unclamped source window is exactly the part of the image that the
      display transform puts inside the container. */
  lemma WindowIsViewportPreimage(container: nat, base: nat, natural: nat, s: real, t: real)
    requires base > 0 && natural > 0 && s > 0.0
    ensures var start := WindowStart(container, base, natural, s, t);
      && DisplayOffset(start, base, natural, s, t) == -(container as real) / 2.0
      && DisplayOffset(start + WindowLength(container, base, natural, s), base, natural, s, t)
         == container as real / 2.0
  {
    CentredWindowDisplay(container, base, natural, s, t, WindowLength(container, base, natural, s));
  }

  /** Render-time clamp of a window start into [0, natural - len]. The
      result is never negative, and stays inside the image whenever the
      window fits in it at all. */
  function ClampStart(start: real, len: real, natural: nat): (r: real)
    ensures r >= 0.0
    ensures len <= natural as real ==> r + len <= natural as real
    ensures 0.0 <= start && start + len <= natural as real ==> r == start
    ensures len <= natural as real && start < 0.0 ==> r == 0.0
    ensures len <= natural as real && start + len > natural as real ==> r == natural as real - len
    ensures len > natural as real ==> r == 0.0
  {
    Max(0.0, Min(start, natural as real - len))
  }

  /** One axis of the source rectangle: its clamped start and its length. */
  datatype Span = Span(start: real, length: real)

  /** The source window along one axis: the viewport's preimage, clamped
      into the image. */
  function AxisWindow(container: nat, base: nat, natural: nat, s: real, t: real): (w: Span)
    requires base > 0 && s > 0.0
    ensures 0.0 <= w.start
    ensures w.length <= natural as real ==> w.start + w.length <= natural as real
    ensures FillsContainer(w.length, container, base, natural, s)
    ensures w.start == ClampStart(WindowStart(container, base, natural, s, t), w.length, natural)
  {
    var len := WindowLength(container, base, natural, s);
    Span(ClampStart(WindowStart(container, base, natural, s, t), len, natural), len)
  }

  datatype Rect = Rect(x: real, y: real, width: real, height: real)

  /** The source rectangle in natural pixels. */
  function SourceRect(container: Size, base: Size, natural: Size, s: real, t: Point): (r: Rect)
    requires base.width > 0 && base.height > 0 && s > 0.0
    ensures 0.0 <= r.x && 0.0 <= r.y
    ensures r.width <= natural.width as real ==> r.x + r.width <= natural.width as real
    ensures r.height <= natural.height as real ==> r.y + r.height <= natural.height as real
    ensures FillsContainer(r.width, container.width, base.width, natural.width, s)
    ensures FillsContainer(r.height, container.height, base.height, natural.height, s)
    ensures r.x == ClampStart(WindowStart(container.width, base.width, natural.width, s, t.x), r.width, natural.width)
    ensures r.y == ClampStart(WindowStart(container.height, base.height, natural.height, s, t.y), r.height, natural.height)
  {
    var wx := AxisWindow(container.width, base.width, natural.width, s, t.x);
    var wy := AxisWindow(container.height, base.height, natural.height, s, t.y);
    Rect(wx.start, wy.start, wx.length, wy.length)
  }

  /** On an axis where the scaled image covers the container, a pan within
      the limits already keeps the unclamped window inside the image. */
  lemma PannedWindowInsideImage(container: nat, base: nat, natural: nat, s: real, t: real)
    requires base > 0 && natural > 0 && s > 0.0
    requires container as real <= base as real * s
    requires -AxisLimit(base, container, s) <= t <= AxisLimit(base, container, s)
    ensures 0.0 <= WindowStart(container, base, natural, s, t)
    ensures WindowStart(container, base, natural, s, t) + WindowLength(container, base, natural, s)
      <= natural as real
  {
    var start := WindowStart(container, base, natural, s, t);
    var len := WindowLength(container, base, natural, s);
    WindowIsViewportPreimage(container, base, natural, s, t);
    DisplayOfImageEdges(base, natural, s, t);
    DisplayOffsetMonotone(0.0, start, base, natural, s, t);
    DisplayOffsetMonotone(start + len, natural as real, base, natural, s, t);
  }

  // ---------------------------------------------------------------------
  // Crop export
  // ---------------------------------------------------------------------

  /** What a successful crop draws: the source rectangle, the final output
      size, the working canvas size, and whether a second downsampling pass
      onto an output-sized canvas happens. */
  datatype CropPlan = CropPlan(
    source: Rect,
    outWidth: int,
    outHeight: int,
    renderWidth: int,
    renderHeight: int,
    downsample: bool)

  /** Both refs attached and all four image dimensions non-zero. */
  predicate Ready(refs: Refs) {
    && refs.container.Some? && refs.image.Some?
    && refs.image.value.offset.width > 0 && refs.image.value.offset.height > 0
    && refs.image.value.natural.width > 0 && refs.image.value.natural.height > 0
  }

  /** `getCroppedImage` up to the drawing calls. `window` is the window's
      device pixel ratio (`None` without a window); `hiContext` and
      `lowContext` say whether the working and the output canvas yield a 2D
      context. `None` is the function's `null`. */
  function GetCroppedImage(refs: Refs, vp: Viewport, opts: CropOptions, window: Option<real>,
                           hiContext: bool, lowContext: bool): (r: Option<CropPlan>)
    ensures !Ready(refs) ==> r.None?
    ensures r.Some? <==>
      Ready(refs) && hiContext && (RenderScale(opts, window) == 1.0 || lowContext)
    ensures r.Some? ==>
      && r.value.outWidth >= 1 && r.value.outHeight >= 1
      && (r.value.downsample <==> RenderScale(opts, window) != 1.0)
      && (RenderScale(opts, window) == 1.0 ==>
            r.value.renderWidth == r.value.outWidth && r.value.renderHeight == r.value.outHeight)
    ensures r.Some? ==>
      var src := r.value.source;
      var c := refs.container.value;
      var img := refs.image.value;
      && 0.0 <= src.x && 0.0 <= src.y
      && (src.width <= img.natural.width as real ==> src.x + src.width <= img.natural.width as real)
      && (src.height <= img.natural.height as real ==> src.y + src.height <= img.natural.height as real)
      && FillsContainer(src.width, c.width, img.offset.width, img.natural.width, Scale(vp.slider))
      && FillsContainer(src.height, c.height, img.offset.height, img.natural.height, Scale(vp.slider))
      && src == SourceRect(c, img.offset, img.natural, Scale(vp.slider), vp.transform)
    ensures r.Some? ==>
      var c := refs.container.value;
      && r.value.outWidth == OutputLength(opts.outWidth, c.width)
      && r.value.outHeight == OutputLength(opts.outHeight, c.height)
      && r.value.renderWidth == RenderLength(r.value.outWidth, RenderScale(opts, window))
      && r.value.renderHeight == RenderLength(r.value.outHeight, RenderScale(opts, window))
  {
    if refs.image.None? || refs.container.None? then None
    else
      var img := refs.image.value;
      if img.offset.width == 0 || img.offset.height == 0 || img.natural.width == 0 || img.natural.height == 0 then
        None
      else if !hiContext then None
      else if RenderScale(opts, window) != 1.0 && !lowContext then None
      else Some(PlanFor(refs.container.value, img, Scale(vp.slider), vp.transform, opts, window))
  }

  /** The plan of a crop that reaches the drawing calls: output size, working
      size at the render scale, and the source rectangle. */
  function PlanFor(c: Size, img: ImageElement, s: real, t: Point, opts: CropOptions, window: Option<real>): (p: CropPlan)
    requires img.offset.width > 0 && img.offset.height > 0 && s > 0.0
    ensures RenderScale(opts, window) == 1.0 ==> p.renderWidth == p.outWidth && p.renderHeight == p.outHeight
  {
    var outW := OutputLength(opts.outWidth, c.width);
    var outH := OutputLength(opts.outHeight, c.height);
    var renderScale := RenderScale(opts, window);
    CropPlan(SourceRect(c, img.offset, img.natural, s, t), outW, outH,
             RenderLength(outW, renderScale), RenderLength(outH, renderScale), renderScale != 1.0)
  }

  /** When the pan is within the limits at the current zoom and the zoomed
      image covers the container, the render-time clamp changes nothing:
      the exported rectangle is exactly what the container shows. */
  lemma CropOfPanWithinLimitsIsViewport(refs: Refs, vp: Viewport, opts: CropOptions, window: Option<real>,
                                        hiContext: bool, lowContext: bool)
    requires Ready(refs)
    requires WithinLimits(vp.transform, PanLimits(refs, Scale(vp.slider)))
    requires ContainerSize(refs).width as real <= BaseSize(refs).width as real * Scale(vp.slider)
    requires ContainerSize(refs).height as real <= BaseSize(refs).height as real * Scale(vp.slider)
    ensures var r := GetCroppedImage(refs, vp, opts, window, hiContext, lowContext);
      var c := refs.container.value;
      var img := refs.image.value;
      var s := Scale(vp.slider);
      r.Some? ==>
        && r.value.source.x == WindowStart(c.width, img.offset.width, img.natural.width, s, vp.transform.x)
        && r.value.source.y == WindowStart(c.height, img.offset.height, img.natural.height, s, vp.transform.y)
        && DisplayOffset(r.value.source.x, img.offset.width, img.natural.width, s, vp.transform.x)
           == -(c.width as real) / 2.0
        && DisplayOffset(r.value.source.y, img.offset.height, img.natural.height, s, vp.transform.y)
           == -(c.height as real) / 2.0
  {
    var c := refs.container.value;
    var img := refs.image.value;
    var s := Scale(vp.slider);
    PannedWindowInsideImage(c.width, img.offset.width, img.natural.width, s, vp.transform.x);
    PannedWindowInsideImage(c.height, img.offset.height, img.natural.height, s, vp.transform.y);
    WindowIsViewportPreimage(c.width, img.offset.width, img.natural.width, s, vp.transform.x);
    WindowIsViewportPreimage(c.height, img.offset.height, img.natural.height, s, vp.transform.y);
  }

  // ---------------------------------------------------------------------
  // Scenarios
  // ---------------------------------------------------------------------

  /** A 300 x 300 container showing a 1200 x 1200 image at 300 x 300. */
  const SquareRefs := Refs(Some(Size(300, 300)), Some(ImageElement(Size(300, 300), Size(1200, 1200))))

  /** Slider 0, no pan: the whole image is exported. */
  lemma FullImageAtSliderZero()
    ensures GetCroppedImage(SquareRefs, InitialViewport, DefaultOptions, Some(1.0), true, true)
      == Some(CropPlan(Rect(0.0, 0.0, 1200.0, 1200.0), 300, 300, 300, 300, false))
  {
    RoundOfInteger(300);
    assert WindowLength(300, 300, 1200, 1.0) == 1200.0;
  }

  /** Slider 100, no pan: the centred half-size window is exported. */
  lemma CentredHalfAtSliderHundred()
    ensures GetCroppedImage(SquareRefs, Viewport(100, Point(0.0, 0.0), None), DefaultOptions, Some(1.0), true, true)
      == Some(CropPlan(Rect(300.0, 300.0, 600.0, 600.0), 300, 300, 300, 300, false))
  {
    RoundOfInteger(300);
    assert WindowLength(300, 300, 1200, 2.0) == 600.0;
  }

  /** At slider 100 the square scenario's pan limit is 150 on both axes, and
      dragging 400 pixels to the right pins the pan at that limit. */
  lemma DragPinsAtLimit()
    ensures PanLimits(SquareRefs, Scale(100)) == Limits(150.0, 150.0)
    ensures PanMove(PanStart(Viewport(100, Point(0.0, 0.0), None), Point(0.0, 0.0)),
                    SquareRefs, Point(400.0, 0.0), PrimaryButtonOnly).transform == Point(150.0, 0.0)
  {
    assert Scale(100) == 2.0;
    assert AxisLimit(300, 300, 2.0) == 150.0;
    var started := PanStart(Viewport(100, Point(0.0, 0.0), None), Point(0.0, 0.0));
    assert started.dragStart == Some(Point(0.0, 0.0));
    assert ClampAxis(400.0, 150.0) == 150.0;
    assert ClampAxis(0.0, 150.0) == 0.0;
  }

  /** Sliding back to 0 after that drag keeps the pan at 150 although the
      limit is now 0: the pan-time clamp alone does not keep the window
      inside the image. The render-time clamp does; here it moves the window,
      whose true start is 600 natural pixels left of the image, back onto
      the whole image. */
  lemma SliderLeavesPanOutsideLimits()
    ensures var back := Viewport(0, Point(150.0, 0.0), None);
      && back == SliderDragged(PanEnd(Viewport(100, Point(150.0, 0.0), Some(Point(250.0, 0.0)))), 0)
      && !WithinLimits(back.transform, PanLimits(SquareRefs, Scale(0)))
      && WindowStart(300, 300, 1200, Scale(0), 150.0) == -600.0
      && GetCroppedImage(SquareRefs, back, DefaultOptions, Some(1.0), true, true).value.source
         == Rect(0.0, 0.0, 1200.0, 1200.0)
  {
    assert AxisLimit(300, 300, 1.0) == 0.0;
    assert WindowLength(300, 300, 1200, 1.0) == 1200.0;
    assert WindowStart(300, 300, 1200, 1.0, 150.0) == -600.0;
    assert WindowStart(300, 300, 1200, 1.0, 0.0) == 0.0;
    RoundOfInteger(300);
  }

  /** There is no check on the container's size: a 0 x 0 container with the
      image loaded still yields a plan, with a 1 x 1 output (the floor of
      1) and an empty source rectangle at the image centre. */
  lemma EmptyContainerStillCrops()
    ensures GetCroppedImage(Refs(Some(Size(0, 0)), SquareRefs.image), InitialViewport, DefaultOptions, Some(1.0), true, true)
      == Some(CropPlan(Rect(600.0, 600.0, 0.0, 0.0), 1, 1, 1, 1, false))
  {
    assert WindowLength(0, 300, 1200, 1.0) == 0.0;
    assert WindowStart(0, 300, 1200, 1.0, 0.0) == 600.0;
    assert OutputLength(None, 0) == 1;
  }

  /** A landscape image (1200 x 600 shown at 300 x 150) in the 300 x 300
      container at zoom 1: the window is taller than the image, its true
      start lies 300 natural pixels above the image, and the clamp moves it
      to 0. The exported window then starts at the image's top edge, while
      on screen the image sits 75 CSS pixels below the container's top. */
  lemma TallWindowPinnedToTop()
    ensures var refs := Refs(Some(Size(300, 300)), Some(ImageElement(Size(300, 150), Size(1200, 600))));
      var r := GetCroppedImage(refs, InitialViewport, DefaultOptions, Some(1.0), true, true);
      && WindowStart(300, 150, 600, 1.0, 0.0) == -300.0
      && r.Some? && r.value.source.y == 0.0 && r.value.source.height == 1200.0
      && DisplayOffset(0.0, 150, 600, 1.0, 0.0) == -75.0
  {
    assert WindowLength(300, 150, 600, 1.0) == 1200.0;
    assert WindowLength(300, 300, 1200, 1.0) == 1200.0;
    RoundOfInteger(300);
  }
}
