/** The ST7789 frame renderer: `st7789_sample_pixel` and `st7789_spi_render_frame`. Every
    panel pixel gets the colour of the nearest source pixel when it lies in the fitted
    rectangle and black when it lies in the padding; rows go out top to bottom, two bytes
    per pixel, high byte first, in one RAMWR stream. `PixelColor` is the specification the
    loop-based `RenderFrame` is proved against. */
module Renderer {
  import opened Bits
  import opened Bitmap
  import opened Geometry
  import opened Spi

  /** RGB565 white and black, the only two colours a 1-bit source produces. */
  const On: u16 := 0xFFFF
  const Off: u16 := 0x0000

  /** The framebuffer holds all FB_HEIGHT rows of FB_WIDTH / 32 words. */
  predicate FramebufferFits(c: Config, fb: seq<u32>) {
    |fb| >= c.fbHeight * Stride(c)
  }

  /** `st7789_sample_pixel`: white if bit 31 - (x & 31) of word x >> 5 of row y is set. */
  function SamplePixel(fb: seq<u32>, srcX: nat, srcY: nat, stride: nat): (color: u16)
    requires srcY * stride + srcX / 32 < |fb|
    ensures color == On || color == Off
    ensures color == On <==> PixelLit(fb, stride, srcX, srcY)
  {
    if BitSet(fb[srcY * stride + srcX / 32], 31 - srcX % 32) then On else Off
  }

  /** The sampler reads back exactly the pixel of the bitmap the framebuffer holds. */
  lemma SampleReadsBitmap(rows: seq<seq<bool>>, stride: nat, x: nat, y: nat)
    requires Rectangular(rows, stride) && y < |rows| && x < 32 * stride
    ensures y * stride + x / 32 < |Pack(rows, stride)|
    ensures SamplePixel(Pack(rows, stride), x, y, stride) == (if rows[y][x] then On else Off)
  {
    PackedPixel(rows, stride, x, y);
  }

  /** Any source pixel of a valid configuration lies inside the framebuffer: its word is in
      its row and its row in the buffer. */
  lemma SampleInBounds(c: Config, fb: seq<u32>, srcX: nat, srcY: nat)
    requires Valid(c) && FramebufferFits(c, fb) && srcX < c.fbWidth && srcY < c.fbHeight
    ensures srcX / 32 < Stride(c)
    ensures srcY * Stride(c) + srcX / 32 < |fb|
  {
    WordOfPixel(srcX, Stride(c));
    RowIndexBound(srcY, c.fbHeight, Stride(c), srcX / 32);
  }

  /** Panel pixel (col, y) lies in the fitted rectangle. */
  predicate InActive(c: Config, col: nat, y: nat)
    requires Valid(c)
  {
    var v := Fit(c);
    v.xPad <= col < v.xPad + v.activeW && v.yPad <= y < v.yPad + v.activeH
  }

  /** src_x = x * FB_WIDTH / active_w for column x of the rectangle. */
  function SrcX(c: Config, x: nat): (s: nat)
    requires Valid(c) && x < Fit(c).activeW
    ensures s < c.fbWidth
  {
    Scale(x, c.fbWidth, Fit(c).activeW)
  }

  /** src_y = (y - y_pad) * FB_HEIGHT / active_h for row y of the rectangle. */
  function SrcY(c: Config, y: nat): (s: nat)
    requires Valid(c) && Fit(c).yPad <= y < Fit(c).yPad + Fit(c).activeH
    ensures s < c.fbHeight
  {
    Scale(y - Fit(c).yPad, c.fbHeight, Fit(c).activeH)
  }

  /** The colour the renderer sends for panel pixel (col, y). */
  function PixelColor(c: Config, fb: seq<u32>, col: nat, y: nat): u16
    requires Valid(c) && FramebufferFits(c, fb)
  {
    if InActive(c, col, y) then
      var srcX, srcY := SrcX(c, col - Fit(c).xPad), SrcY(c, y);
      SampleInBounds(c, fb, srcX, srcY);
      SamplePixel(fb, srcX, srcY, Stride(c))
    else Off
  }

  /** Packing a bitmap and rendering it shows, at each panel pixel, white exactly when the
      pixel is in the fitted rectangle and its nearest source pixel is set. */
  lemma PixelOfBitmap(c: Config, rows: seq<seq<bool>>, col: nat, y: nat)
    requires Valid(c) && |rows| == c.fbHeight && Rectangular(rows, Stride(c))
    ensures FramebufferFits(c, Pack(rows, Stride(c)))
    ensures PixelColor(c, Pack(rows, Stride(c)), col, y) == On
      <==> InActive(c, col, y) && rows[SrcY(c, y)][SrcX(c, col - Fit(c).xPad)]
  {
    var fb := Pack(rows, Stride(c));
    assert FramebufferFits(c, fb);
    if InActive(c, col, y) {
      var srcX, srcY := SrcX(c, col - Fit(c).xPad), SrcY(c, y);
      WordOfPixel(srcX, Stride(c));
      SampleReadsBitmap(rows, Stride(c), srcX, srcY);
      assert PixelColor(c, fb, col, y) == SamplePixel(fb, srcX, srcY, Stride(c));
    }
  }

  /** One byte of a colour: `color >> 8` or `color & 0xFF`. */
  function Half(color: u16, high: bool): byte {
    if high then Hi(color) else Lo(color)
  }

  /** Colours as the byte stream the panel takes in RGB565 mode: two bytes each, high first. */
  function Serialize(colors: seq<u16>): (bs: seq<byte>)
    ensures |bs| == 2 * |colors|
  {
    seq(2 * |colors|, k requires 0 <= k < 2 * |colors| => Half(colors[k / 2], k % 2 == 0))
  }

  /** The panel's reading of a byte stream as colours. */
  function Deserialize(bs: seq<byte>): (colors: seq<u16>)
    requires |bs| % 2 == 0
    ensures |colors| == |bs| / 2
  {
    seq(|bs| / 2, i requires 0 <= i < |bs| / 2 => Join(bs[2 * i], bs[2 * i + 1]))
  }

  /** The panel recovers every colour sent. */
  lemma SerializeRoundTrip(colors: seq<u16>)
    ensures Deserialize(Serialize(colors)) == colors
  {
    var bs := Serialize(colors);
    forall i | 0 <= i < |colors| ensures Deserialize(bs)[i] == colors[i] {
      assert bs[2 * i] == Hi(colors[i]) && bs[2 * i + 1] == Lo(colors[i]);
      HiLoRoundTrip(colors[i]);
    }
  }

  /** Every even-length byte stream is the serialization of the colours read from it. */
  lemma DeserializeRoundTrip(bs: seq<byte>)
    requires |bs| % 2 == 0
    ensures Serialize(Deserialize(bs)) == bs
  {
    var colors := Deserialize(bs);
    forall k | 0 <= k < |bs| ensures Serialize(colors)[k] == bs[k] {
      var i := k / 2;
      assert colors[i] == Join(bs[2 * i], bs[2 * i + 1]);
    }
  }

  /** Colour i is sent as bytes 2 i and 2 i + 1. */
  lemma SerializeAt(colors: seq<u16>, i: nat)
    requires i < |colors|
    ensures Serialize(colors)[2 * i] == Hi(colors[i])
    ensures Serialize(colors)[2 * i + 1] == Lo(colors[i])
  {
  }

  /** The colours of panel row y, left to right. */
  function RowColors(c: Config, fb: seq<u32>, y: nat): (colors: seq<u16>)
    requires Valid(c) && FramebufferFits(c, fb)
    ensures |colors| == c.tftWidth
  {
    seq(c.tftWidth, col requires 0 <= col < c.tftWidth => PixelColor(c, fb, col, y))
  }

  /** The line buffer as sent for row y: TFT_WIDTH * 2 bytes. */
  function RowBytes(c: Config, fb: seq<u32>, y: nat): seq<byte>
    requires Valid(c) && FramebufferFits(c, fb)
  {
    Serialize(RowColors(c, fb, y))
  }

  /** The line buffer after the first `n` columns of the rectangle are drawn into a cleared
      buffer: colour of column col. */
  function Partial(c: Config, fb: seq<u32>, y: nat, n: nat, col: nat): u16
    requires Valid(c) && FramebufferFits(c, fb)
  {
    var v := Fit(c);
    if v.xPad <= col < v.xPad + n && n <= v.activeW then PixelColor(c, fb, col, y) else Off
  }

  /** One SPI write per row, rows 0 to n - 1 in order. */
  function RowWrites(c: Config, fb: seq<u32>, n: nat): (t: seq<Event>)
    requires Valid(c) && FramebufferFits(c, fb)
    ensures |t| == n
  {
    if n == 0 then [] else RowWrites(c, fb, n - 1) + [Write(RowBytes(c, fb, n - 1))]
  }

  /** What precedes the pixel rows: the address window covering the whole panel, shifted by
      TFT_X_OFFSET and TFT_Y_OFFSET, then RAMWR. */
  function Preamble(c: Config): seq<Event>
    requires Valid(c)
  {
    AddrWindowEvents(c.xOffset, c.yOffset, c.xOffset + c.tftWidth - 1, c.yOffset + c.tftHeight - 1)
      + BeginPixelsEvents()
  }

  /** Everything a frame puts on the wires. */
  function FrameEvents(c: Config, fb: seq<u32>): seq<Event>
    requires Valid(c) && FramebufferFits(c, fb)
  {
    Preamble(c) + RowWrites(c, fb, c.tftHeight) + EndPixelsEvents()
  }

  /** `st7789_spi_render_frame`, with the static `line_bytes` buffer passed in. */
  method RenderFrame(bus: SpiBus, line: array<byte>, c: Config, fb: seq<u32>)
    requires Valid(c) && FramebufferFits(c, fb)
    requires bus.Valid() && line.Length == 2 * c.tftWidth
    modifies bus, line
    ensures bus.trace == old(bus.trace) + FrameEvents(c, fb)
    ensures bus.Valid() && bus.cs && bus.dc
    ensures line[..] == RowBytes(c, fb, c.tftHeight - 1)
  {
    var x0, y0 := c.xOffset, c.yOffset;
    var x1, y1 := c.xOffset + c.tftWidth - 1, c.yOffset + c.tftHeight - 1;
    bus.SetAddrWindow(x0, y0, x1, y1);
    bus.BeginPixels();
    Regroup(old(bus.trace), AddrWindowEvents(x0, y0, x1, y1), BeginPixelsEvents());
    ghost var head := old(bus.trace) + Preamble(c);

    var y := 0;
    while y < c.tftHeight
      invariant y <= c.tftHeight
      invariant bus.Valid() && !bus.cs && bus.dc
      invariant bus.trace == head + RowWrites(c, fb, y)
      invariant y > 0 ==> line[..] == RowBytes(c, fb, y - 1)
    {
      DrawRow(line, c, fb, y);
      bus.SpiWrite(line[..]);
      y := y + 1;
    }
    bus.EndPixels();
    Regroup(head, RowWrites(c, fb, c.tftHeight), EndPixelsEvents());
    Regroup(old(bus.trace), Preamble(c) + RowWrites(c, fb, c.tftHeight), EndPixelsEvents());
    Regroup(old(bus.trace), Preamble(c), RowWrites(c, fb, c.tftHeight));
  }

  lemma Regroup<T>(t: seq<T>, a: seq<T>, b: seq<T>)
    ensures t + (a + b) == t + a + b
  {
  }

  /** The body of the row loop of `st7789_spi_render_frame`: clear the line, then, for a row
      in the band, sample each column of the rectangle into it. */
  method DrawRow(line: array<byte>, c: Config, fb: seq<u32>, y: nat)
    requires Valid(c) && FramebufferFits(c, fb) && line.Length == 2 * c.tftWidth
    modifies line
    ensures line[..] == RowBytes(c, fb, y)
  {
    var stride := c.fbWidth / 32;
    var v := Fit(c);
    var activeW, activeH, xPad, yPad := v.activeW, v.activeH, v.xPad, v.yPad;
    forall k | 0 <= k < line.Length {
      line[k] := 0;
    }
    var x := 0;
    if y >= yPad && y < yPad + activeH {
      var srcY := Scale(y - yPad, c.fbHeight, activeH);
      while x < activeW
        invariant x <= activeW
        invariant forall k :: 0 <= k < line.Length ==> line[k] == Half(Partial(c, fb, y, x, k / 2), k % 2 == 0)
      {
        var srcX := Scale(x, c.fbWidth, activeW);
        SampleInBounds(c, fb, srcX, srcY);
        var color := SamplePixel(fb, srcX, srcY, stride);
        var outX := x + xPad;
        line[outX * 2] := Hi(color);
        line[outX * 2 + 1] := Lo(color);
        forall k | 0 <= k < line.Length
          ensures line[k] == Half(Partial(c, fb, y, x + 1, k / 2), k % 2 == 0)
        {
          PartialStep(c, fb, y, x, k / 2);
        }
        x := x + 1;
      }
    }
    LineIsRow(c, fb, y, x, line[..]);
  }

  /** Drawing column x of the rectangle changes that panel column only, to its colour. */
  lemma PartialStep(c: Config, fb: seq<u32>, y: nat, x: nat, col: nat)
    requires Valid(c) && FramebufferFits(c, fb)
    requires Fit(c).yPad <= y < Fit(c).yPad + Fit(c).activeH && x < Fit(c).activeW
    ensures SrcY(c, y) * Stride(c) + SrcX(c, x) / 32 < |fb|
    ensures Partial(c, fb, y, x + 1, col)
      == if col == Fit(c).xPad + x then SamplePixel(fb, SrcX(c, x), SrcY(c, y), Stride(c))
         else Partial(c, fb, y, x, col)
  {
    SampleInBounds(c, fb, SrcX(c, x), SrcY(c, y));
  }

  /** A buffer drawn up to column n of the rectangle, where n covers the whole rectangle when
      the row is in the band, is the row as specified. */
  lemma LineIsRow(c: Config, fb: seq<u32>, y: nat, n: nat, line: seq<byte>)
    requires Valid(c) && FramebufferFits(c, fb) && |line| == 2 * c.tftWidth
    requires Fit(c).yPad <= y < Fit(c).yPad + Fit(c).activeH ==> n == Fit(c).activeW
    requires n <= Fit(c).activeW
    requires forall k :: 0 <= k < |line| ==> line[k] == Half(Partial(c, fb, y, n, k / 2), k % 2 == 0)
    ensures line == RowBytes(c, fb, y)
  {
    var row := RowColors(c, fb, y);
    forall k | 0 <= k < |line| ensures line[k] == RowBytes(c, fb, y)[k] {
      assert Partial(c, fb, y, n, k / 2) == row[k / 2];
    }
  }

  /** The pixel bytes of rows 0 to n - 1, in the order they are sent. */
  function Stream(c: Config, fb: seq<u32>, n: nat): seq<byte>
    requires Valid(c) && FramebufferFits(c, fb)
  {
    if n == 0 then [] else Stream(c, fb, n - 1) + RowBytes(c, fb, n - 1)
  }

  /** Write i of the pixel stream is row i, TFT_WIDTH * 2 bytes long. */
  lemma {:induction false} RowWritesInOrder(c: Config, fb: seq<u32>, n: nat, i: nat)
    requires Valid(c) && FramebufferFits(c, fb) && i < n
    ensures RowWrites(c, fb, n)[i] == Write(RowBytes(c, fb, i))
    ensures |RowBytes(c, fb, i)| == 2 * c.tftWidth
    decreases n
  {
    if i < n - 1 {
      RowWritesInOrder(c, fb, n - 1, i);
    }
  }

  /** With CS low and DC high the panel takes every row in as pixel data, and the pins stay
      where they are. */
  lemma {:induction false} RowsReceived(c: Config, fb: seq<u32>, n: nat)
    requires Valid(c) && FramebufferFits(c, fb)
    ensures Decode(RowWrites(c, fb, n), Lines(false, true)) == Tagged(Stream(c, fb, n), true)
    ensures Replay(RowWrites(c, fb, n), Lines(false, true)) == Lines(false, true)
    decreases n
  {
    if n > 0 {
      var l := Lines(false, true);
      var row := [Write(RowBytes(c, fb, n - 1))];
      RowsReceived(c, fb, n - 1);
      DecodeAppend(RowWrites(c, fb, n - 1), row, l);
      assert Decode(row, l) == Tagged(RowBytes(c, fb, n - 1), true) + Decode([], l);
      TaggedAppend(Stream(c, fb, n - 1), RowBytes(c, fb, n - 1), true);
    }
  }

  /** What the panel receives from a whole frame, from any prior pin levels: the address
      window covering the panel, RAMWR, then every row as data, top to bottom; afterwards
      it is deselected. */
  lemma FrameReceived(c: Config, fb: seq<u32>, l: Lines)
    requires Valid(c) && FramebufferFits(c, fb)
    ensures var a := AddrWindowEvents(c.xOffset, c.yOffset, c.xOffset + c.tftWidth - 1, c.yOffset + c.tftHeight - 1);
      Decode(FrameEvents(c, fb), l) == Decode(a, l) + [Command(RAMWR)] + Tagged(Stream(c, fb, c.tftHeight), true)
    ensures Replay(FrameEvents(c, fb), l) == Lines(true, true)
  {
    var a := AddrWindowEvents(c.xOffset, c.yOffset, c.xOffset + c.tftWidth - 1, c.yOffset + c.tftHeight - 1);
    RowsReceived(c, fb, c.tftHeight);
    PixelStreamReceived(a, RowWrites(c, fb, c.tftHeight), Stream(c, fb, c.tftHeight), l);
  }

  /** A row outside the band is sent as TFT_WIDTH * 2 zero bytes. */
  lemma BlankRow(c: Config, fb: seq<u32>, y: nat)
    requires Valid(c) && FramebufferFits(c, fb)
    requires y < Fit(c).yPad || y >= Fit(c).yPad + Fit(c).activeH
    ensures RowBytes(c, fb, y) == seq(2 * c.tftWidth, k => 0)
  {
  }

  /** In every row, a panel column outside the rectangle is sent as two zero bytes. */
  lemma PaddingColumnBytes(c: Config, fb: seq<u32>, y: nat, col: nat)
    requires Valid(c) && FramebufferFits(c, fb) && col < c.tftWidth
    requires col < Fit(c).xPad || col >= Fit(c).xPad + Fit(c).activeW
    ensures RowBytes(c, fb, y)[2 * col] == 0 && RowBytes(c, fb, y)[2 * col + 1] == 0
  {
    SerializeAt(RowColors(c, fb, y), col);
  }

  /** In a row of the band, column x of the rectangle (panel column x_pad + x) is sent as the
      high then the low byte of the sample of source pixel
      (x * FB_WIDTH / active_w, (y - y_pad) * FB_HEIGHT / active_h). */
  lemma ActiveColumnBytes(c: Config, fb: seq<u32>, y: nat, x: nat)
    requires Valid(c) && FramebufferFits(c, fb)
    requires Fit(c).yPad <= y < Fit(c).yPad + Fit(c).activeH && x < Fit(c).activeW
    ensures SrcY(c, y) * Stride(c) + SrcX(c, x) / 32 < |fb|
    ensures var col := Fit(c).xPad + x;
      && RowBytes(c, fb, y)[2 * col] == Hi(SamplePixel(fb, SrcX(c, x), SrcY(c, y), Stride(c)))
      && RowBytes(c, fb, y)[2 * col + 1] == Lo(SamplePixel(fb, SrcX(c, x), SrcY(c, y), Stride(c)))
  {
    var col := Fit(c).xPad + x;
    SampleInBounds(c, fb, SrcX(c, x), SrcY(c, y));
    assert InActive(c, col, y) && col - Fit(c).xPad == x;
    assert RowColors(c, fb, y)[col] == SamplePixel(fb, SrcX(c, x), SrcY(c, y), Stride(c));
    SerializeAt(RowColors(c, fb, y), col);
  }

  /** Going down the panel never goes up the source. */
  lemma SrcYMonotone(c: Config, y: nat, y': nat)
    requires Valid(c) && Fit(c).yPad <= y <= y' < Fit(c).yPad + Fit(c).activeH
    ensures SrcY(c, y) <= SrcY(c, y')
  {
    ScaleMonotone(y - Fit(c).yPad, y' - Fit(c).yPad, c.fbHeight, Fit(c).activeH);
  }

  /** Going right across the panel never goes left in the source. */
  lemma SrcXMonotone(c: Config, x: nat, x': nat)
    requires Valid(c) && x <= x' < Fit(c).activeW
    ensures SrcX(c, x) <= SrcX(c, x')
  {
    ScaleMonotone(x, x', c.fbWidth, Fit(c).activeW);
  }

  /** A bitmap with every pixel set. */
  function AllSet(c: Config): (rows: seq<seq<bool>>)
    ensures |rows| == c.fbHeight
  {
    seq(c.fbHeight, y => seq(c.fbWidth, x => true))
  }

  /** An all-white source lights exactly the fitted rectangle. */
  lemma AllSetShowsRectangle(c: Config, col: nat, y: nat)
    requires Valid(c)
    ensures FramebufferFits(c, Pack(AllSet(c), Stride(c)))
    ensures PixelColor(c, Pack(AllSet(c), Stride(c)), col, y) == On <==> InActive(c, col, y)
  {
    var rows := AllSet(c);
    assert Rectangular(rows, Stride(c));
    PixelOfBitmap(c, rows, col, y);
  }

  /** A 512 x 342 bitmap whose top row has its first eight pixels set and nothing else. */
  predicate TopLeftEight(rows: seq<seq<bool>>) {
    && |rows| == 342
    && (forall y :: 0 <= y < 342 ==> |rows[y]| == 512)
    && (forall y, x :: 0 <= y < 342 && 0 <= x < 512 ==> (rows[y][x] <==> y == 0 && x < 8))
  }

  /** Such a bitmap exists. */
  lemma TopLeftEightExists()
    ensures TopLeftEight(seq(342, y => seq(512, x => y == 0 && x < 8)))
  {
  }

  /** The default configuration on that bitmap: only panel row 80, the first row of the
      rectangle, shows anything, and there only columns 0 to 3. */
  lemma MacTopLeftEight(rows: seq<seq<bool>>, col: nat, y: nat)
    requires TopLeftEight(rows) && col < 240 && y < 320
    ensures Valid(Mac) && Rectangular(rows, Stride(Mac))
    ensures FramebufferFits(Mac, Pack(rows, Stride(Mac)))
    ensures PixelColor(Mac, Pack(rows, Stride(Mac)), col, y) == On <==> y == 80 && col < 4
  {
    MacFit();
    assert Stride(Mac) == 16;
    PixelOfBitmap(Mac, rows, col, y);
    if InActive(Mac, col, y) {
      MacFirstRow(y);
      MacFirstColumns(col);
    } else {
      assert y != 80;
    }
  }

  /** Only the first row of the rectangle samples source row 0: src_y = (y - 80) * 342 / 160
      is 2 already for y = 81. */
  lemma MacFirstRow(y: nat)
    requires 80 <= y < 240
    ensures Valid(Mac) && Fit(Mac).yPad <= y < Fit(Mac).yPad + Fit(Mac).activeH
    ensures SrcY(Mac, y) == 0 <==> y == 80
  {
    MacFit();
    if y > 80 {
      assert Scale(1, 342, 160) == 2;
      ScaleMonotone(1, y - 80, 342, 160);
    } else {
      assert Scale(0, 342, 160) == 0;
    }
  }

  /** Columns 0 to 3 sample source columns 0, 2, 4, 6; column 4 samples 8. */
  lemma MacFirstColumns(col: nat)
    requires col < 240
    ensures Valid(Mac) && col < Fit(Mac).activeW
    ensures SrcX(Mac, col) < 8 <==> col < 4
  {
    MacFit();
    if col < 4 {
      assert Scale(3, 512, 240) == 6;
      ScaleMonotone(col, 3, 512, 240);
    } else {
      assert Scale(4, 512, 240) == 8;
      ScaleMonotone(4, col, 512, 240);
    }
  }

  /** A panel the size of the source shows it pixel for pixel. */
  lemma SameSizeShowsSource(c: Config, fb: seq<u32>, col: nat, y: nat)
    requires Valid(c) && FramebufferFits(c, fb)
    requires c.tftWidth == c.fbWidth && c.tftHeight == c.fbHeight
    requires col < c.fbWidth && y < c.fbHeight
    ensures y * Stride(c) + col / 32 < |fb|
    ensures PixelColor(c, fb, col, y) == SamplePixel(fb, col, y, Stride(c))
  {
    SameSizeIsIdentity(c);
    ScaleIdentity(col, c.fbWidth);
    ScaleIdentity(y, c.fbHeight);
    SampleInBounds(c, fb, col, y);
  }
}
