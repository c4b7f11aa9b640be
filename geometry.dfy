/** Panel geometry and the aspect-preserving fit of the source image onto the panel:
    the viewport computation at the top of `st7789_spi_render_frame` and the
    nearest-neighbour maps from destination to source coordinates. */
module Geometry {
  import opened Bits

  /** Compile-time configuration: the source framebuffer (FB_WIDTH x FB_HEIGHT), the panel
      (TFT_WIDTH x TFT_HEIGHT) and the panel's address offset (TFT_X_OFFSET, TFT_Y_OFFSET). */
  datatype Config = Config(
    fbWidth: nat, fbHeight: nat,
    tftWidth: nat, tftHeight: nat,
    xOffset: nat, yOffset: nat)

  /** The configurations the driver is written for. */
  predicate Valid(c: Config) {
    && c.fbWidth > 0 && c.fbWidth % 32 == 0 && c.fbHeight > 0
    && c.tftWidth > 0 && c.tftHeight > 0
    // TFT_WIDTH * FB_HEIGHT and TFT_HEIGHT * FB_WIDTH are C `int` constant expressions
    && c.tftWidth * c.fbHeight < 0x8000_0000 && c.tftHeight * c.fbWidth < 0x8000_0000
    // (y - y_pad) * FB_HEIGHT and x * FB_WIDTH are computed in uint32_t
    && c.tftHeight * c.fbHeight < 0x1_0000_0000 && c.tftWidth * c.fbWidth < 0x1_0000_0000
    // src_y * src_stride_words is computed in uint32_t
    && c.fbHeight * (c.fbWidth / 32) <= 0x1_0000_0000
    // the corners of the address window are uint16_t
    && c.xOffset + c.tftWidth <= 0x1_0000 && c.yOffset + c.tftHeight <= 0x1_0000
  }

  /** The default configuration: the 512 x 342 Macintosh screen on a 240 x 320 panel. */
  const Mac := Config(512, 342, 240, 320, 0, 0)

  /** Words per source row, FB_WIDTH / 32. */
  function Stride(c: Config): nat {
    c.fbWidth / 32
  }

  /** The scaled image (active_w x active_h) and its top-left corner (x_pad, y_pad). */
  datatype Viewport = Viewport(activeW: nat, activeH: nat, xPad: nat, yPad: nat)

  /** One side of the active rectangle fills the panel and the other is the source's
      aspect ratio applied to it, rounded down. */
  predicate Proportional(c: Config, v: Viewport) {
    || (v.activeW == c.tftWidth
        && v.activeH * c.fbWidth <= v.activeW * c.fbHeight < (v.activeH + 1) * c.fbWidth)
    || (v.activeH == c.tftHeight
        && v.activeW * c.fbHeight <= v.activeH * c.fbWidth < (v.activeW + 1) * c.fbHeight)
  }

  /** Fit the source into the panel: full width if the scaled height fits, full height
      otherwise; then centre with truncating padding. */
  function Fit(c: Config): (v: Viewport)
    requires Valid(c)
    ensures v.activeW <= c.tftWidth && v.activeH <= c.tftHeight
    ensures v.activeW == c.tftWidth || v.activeH == c.tftHeight
    ensures v.xPad == (c.tftWidth - v.activeW) / 2 && v.yPad == (c.tftHeight - v.activeH) / 2
    ensures v.xPad + v.activeW <= c.tftWidth && v.yPad + v.activeH <= c.tftHeight
  {
    var h := MulDiv(c.tftWidth, c.fbHeight, c.fbWidth);
    var (activeW, activeH) :=
      if h > c.tftHeight then
        var w := MulDiv(c.tftHeight, c.fbWidth, c.fbHeight);
        WidthFallback(c, h, w);
        (w, c.tftHeight)
      else
        (c.tftWidth, h);
    Viewport(activeW, activeH, (c.tftWidth - activeW) / 2, (c.tftHeight - activeH) / 2)
  }

  /** The fitted rectangle keeps the source's aspect ratio, and the full-width fit is
      taken whenever its height fits on the panel. */
  lemma FitIsProportional(c: Config)
    requires Valid(c)
    ensures Proportional(c, Fit(c))
    ensures c.tftWidth * c.fbHeight < (c.tftHeight + 1) * c.fbWidth
      ==> Fit(c).activeW == c.tftWidth && Fit(c).activeH == c.tftWidth * c.fbHeight / c.fbWidth
  {
    var h := MulDiv(c.tftWidth, c.fbHeight, c.fbWidth);
    FloorBounds(c.tftWidth * c.fbHeight, c.fbWidth);
    FallbackOverflows(c, h);
    if h > c.tftHeight {
      var w := MulDiv(c.tftHeight, c.fbWidth, c.fbHeight);
      FloorBounds(c.tftHeight * c.fbWidth, c.fbHeight);
      WidthFallback(c, h, w);
    }
  }

  /** a * b / d in natural numbers, the form of every scaling in the renderer. */
  function MulDiv(a: nat, b: nat, d: nat): nat
    requires d > 0
  {
    a * b / d
  }

  /** Integer division rounds down: d * (a / d) <= a < d * (a / d + 1). */
  lemma FloorBounds(a: nat, d: nat)
    requires d > 0
    ensures (a / d) * d <= a < (a / d + 1) * d
  {
  }

  lemma MulSucc(a: nat, b: nat)
    ensures (a + 1) * b == a * b + b
  {
  }

  lemma MulComm(a: nat, b: nat)
    ensures a * b == b * a
  {
  }

  lemma MulLtCancel(a: nat, b: nat, c: nat)
    requires a * c < b * c
    ensures a < b
  {
    if a >= b {
      MulLe(b, a, c);
    }
  }

  /** The full-width height exceeds the panel only when TFT_WIDTH * FB_HEIGHT reaches
      (TFT_HEIGHT + 1) * FB_WIDTH. */
  lemma FallbackOverflows(c: Config, h: nat)
    requires Valid(c)
    requires h == MulDiv(c.tftWidth, c.fbHeight, c.fbWidth)
    ensures h > c.tftHeight <==> c.tftWidth * c.fbHeight >= (c.tftHeight + 1) * c.fbWidth
  {
    var a := c.tftWidth * c.fbHeight;
    FloorBounds(a, c.fbWidth);
    if h > c.tftHeight {
      MulLe(c.tftHeight + 1, h, c.fbWidth);
    } else {
      MulLe(h + 1, c.tftHeight + 1, c.fbWidth);
    }
  }

  /** When the full-width height does not fit, the full-height width is narrower than
      the panel. */
  lemma WidthFallback(c: Config, h: nat, w: nat)
    requires Valid(c)
    requires h == MulDiv(c.tftWidth, c.fbHeight, c.fbWidth) && h > c.tftHeight
    requires w == MulDiv(c.tftHeight, c.fbWidth, c.fbHeight)
    ensures w < c.tftWidth
  {
    FallbackOverflows(c, h);
    var a, b := c.tftWidth * c.fbHeight, c.tftHeight * c.fbWidth;
    FloorBounds(b, c.fbHeight);
    MulSucc(c.tftHeight, c.fbWidth);
    assert w * c.fbHeight <= b < a;
    MulLtCancel(w, c.tftWidth, c.fbHeight);
  }

  /** Nearest-neighbour scaling: index i of a band of d destination pixels shows source
      pixel i * n / d of n. The renderer uses it for src_x = x * FB_WIDTH / active_w and
      src_y = (y - y_pad) * FB_HEIGHT / active_h. */
  function Scale(i: nat, n: nat, d: nat): (s: nat)
    requires i < d && n > 0
    ensures s < n
  {
    ScaleBelow(i, n, d);
    MulDiv(i, n, d)
  }

  lemma ScaleBelow(i: nat, n: nat, d: nat)
    requires i < d && n > 0
    ensures i * n / d < n
  {
    var p := i * n;
    FloorBounds(p, d);
    MulLe(i + 1, d, n);
    MulSucc(i, n);
    MulComm(d, n);
    MulLtCancel(p / d, n, d);
  }

  /** The source pixel chosen is the one whose share of the band contains i. */
  lemma ScaleIsNearest(i: nat, n: nat, d: nat)
    requires i < d && n > 0
    ensures Scale(i, n, d) * d <= i * n < (Scale(i, n, d) + 1) * d
  {
    FloorBounds(i * n, d);
  }

  /** Integer division is monotonic. */
  lemma DivMonotone(a: nat, b: nat, d: nat)
    requires a <= b && d > 0
    ensures a / d <= b / d
  {
    FloorBounds(a, d);
    FloorBounds(b, d);
    if a / d > b / d {
      MulLe(b / d + 1, a / d, d);
    }
  }

  /** Further down (or right) in the band never maps further up (or left) in the source. */
  lemma ScaleMonotone(i: nat, j: nat, n: nat, d: nat)
    requires i <= j < d && n > 0
    ensures Scale(i, n, d) <= Scale(j, n, d)
  {
    MulLe(i, j, n);
    DivMonotone(i * n, j * n, d);
  }

  /** A band as wide as the source maps every pixel to itself. */
  lemma ScaleIdentity(i: nat, n: nat)
    requires i < n
    ensures Scale(i, n, n) == i
  {
    DivUnique(i * n, n, i, 0);
  }

  /** The uint32_t products x * FB_WIDTH and (y - y_pad) * FB_HEIGHT never wrap. */
  lemma ProductsFit(c: Config, x: nat, y: nat)
    requires Valid(c) && x < Fit(c).activeW && y < Fit(c).activeH
    ensures x * c.fbWidth < 0x1_0000_0000 && y * c.fbHeight < 0x1_0000_0000
  {
    MulLe(x, c.tftWidth, c.fbWidth);
    MulLe(y, c.tftHeight, c.fbHeight);
  }

  /** The uint32_t product src_y * src_stride_words never wraps for a row of the source. */
  lemma RowOffsetFits(c: Config, srcY: nat)
    requires Valid(c) && srcY < c.fbHeight
    ensures srcY * Stride(c) < 0x1_0000_0000
  {
    MulLe(srcY + 1, c.fbHeight, Stride(c));
    MulSucc(srcY, Stride(c));
  }

  /** The default configuration: 240 x 160 image, no side bars, 80-row bars top and bottom. */
  lemma MacFit()
    ensures Valid(Mac)
    ensures Fit(Mac) == Viewport(240, 160, 0, 80)
  {
  }

  /** A panel the size of the source shows it unscaled and without padding. */
  lemma SameSizeIsIdentity(c: Config)
    requires Valid(c) && c.tftWidth == c.fbWidth && c.tftHeight == c.fbHeight
    ensures Fit(c) == Viewport(c.fbWidth, c.fbHeight, 0, 0)
  {
    DivUnique(c.tftWidth * c.fbHeight, c.fbWidth, c.fbHeight, 0);
  }
}
