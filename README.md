# pico-mac-nano TFT renderer, modelled in Dafny

The pico-mac-nano firmware draws the emulated Macintosh's 512 x 342 one-bit screen on a
small ST7789 colour panel. This project models the panel driver in `src/tft_2p.c`, in three
parts.

1. **Geometry** (`geometry.dfy`). The source image is fitted onto the panel with its aspect
   ratio kept: the full panel width if the scaled height fits, otherwise the full panel
   height. The result is centred with truncating padding. Panel pixels map to source pixels
   by nearest-neighbour integer scaling. The compile-time constants (FB_WIDTH, FB_HEIGHT,
   TFT_WIDTH, TFT_HEIGHT, TFT_X_OFFSET, TFT_Y_OFFSET) form a `Config`. `Mac` is the default
   configuration: 512 x 342 shown on a 240 x 320 panel, the `#ifndef` defaults of
   TFT_WIDTH and TFT_HEIGHT.
2. **The framebuffer and the renderer** (`bitmap.dfy`, `renderer.dfy`).
   - The framebuffer stores one bit per pixel, 32 to a `uint32_t` word, with the leftmost
     pixel in the most significant bit. `Bitmap.Pack` builds that layout from a grid of
     pixels and is the reference the sampler is proved against.
   - `Renderer.RenderFrame` is the frame loop. It works on an `array<byte>` line buffer and
     sends everything through an `Spi.SpiBus`.
   - Its postcondition gives the bus trace as a specification function of the framebuffer.
     Lemmas then say what that trace delivers to the panel, pixel by pixel.
3. **The bus** (`spi.dfy`, `bitbang.dfy`).
   - `Spi.SpiBus` is a class that holds the CS and DC pin levels and the trace of pin
     changes and SPI writes. Its methods are the framing helpers: select, command, data,
     address window, begin and end of a pixel stream.
   - `Spi.Decode` is the panel's side of the bus. A byte written while CS is low is taken
     as a command when DC is low and as data when DC is high.
   - `BitBang.BitBangPort` models the bit-banged 3-wire transport `tft_write_com` /
     `tft_write_dat`. `BitBang.Sampled` is the receiving side of that transport: MOSI is
     read on each rising clock edge while CS is low.

`bits.dfy` holds the byte and word types and the arithmetic facts the others share.

Two facts follow from the code and are easy to get wrong:

- `tft_write_com` clocks out nine bits, not eight. A leading 0 bit (lines 173-176) comes
  before the command byte, just as `tft_write_dat` sends a leading 1. The model follows
  the code.
- In the default configuration the image is 240 x 160 at rows 80 to 239. Rows 0 to 79 and
  rows 240 to 319 are padding, so row 240 is already black. Only row 80 shows source
  row 0 (`Renderer.MacFirstRow`).

## Model

| member | source | states |
|---|---|---|
| Bits.Join | pico-mac-nano-main/src/tft_2p.c:93-96 | the big-endian byte pair of a 16-bit value: its high byte is `v >> 8` and its low byte is `v & 0xFF` |
| Bits.HiLoRoundTrip | pico-mac-nano-main/src/tft_2p.c:93-96 | splitting a 16-bit value into `v >> 8` and `v & 0xFF` loses nothing: the two bytes rebuild it |
| Bitmap.WordOfBound | pico-mac-nano-main/src/tft_2p.c:122 | 32 pixels packed most-significant-first fit in a `uint32_t` word |
| Bitmap.WordOfBit | pico-mac-nano-main/src/tft_2p.c:123-124 | in a packed word, listed pixel i is bit 31 - i, which is `(word >> (31 - i)) & 1` |
| Bitmap.PackRowAt | pico-mac-nano-main/src/tft_2p.c:122 | word k of a packed row holds pixels 32k to 32k + 31 of that row |
| Bitmap.PackAt | pico-mac-nano-main/src/tft_2p.c:121-122 | word y * stride + k of the framebuffer is word k of row y, and that index is in bounds |
| Bitmap.PackedPixel | pico-mac-nano-main/src/tft_2p.c:120-124 | for every pixel of a packed bitmap, the bit `st7789_sample_pixel` reads is set exactly when that pixel is set |
| Bitmap.PackedBit | pico-mac-nano-main/src/tft_2p.c:121-124 | bit 31 - r of word k of row y of a packed framebuffer is pixel 32k + r of that row |
| Geometry.Fit | pico-mac-nano-main/src/tft_2p.c:132-140 | the active rectangle fits on the panel and fills it in at least one direction; the padding is half the slack, rounded down, so the rectangle plus its padding stays on the panel |
| Geometry.FitIsProportional | pico-mac-nano-main/src/tft_2p.c:132-137 | one side fills the panel and the other is the source's aspect ratio applied to it, rounded down; whenever the full-width height fits, the result is exactly TFT_WIDTH x (TFT_WIDTH * FB_HEIGHT / FB_WIDTH) |
| Geometry.FallbackOverflows | pico-mac-nano-main/src/tft_2p.c:133-134 | the full-width height exceeds TFT_HEIGHT exactly when TFT_WIDTH * FB_HEIGHT >= (TFT_HEIGHT + 1) * FB_WIDTH |
| Geometry.WidthFallback | pico-mac-nano-main/src/tft_2p.c:134-137 | when the fallback to full height is taken, the resulting width is smaller than TFT_WIDTH |
| Geometry.Scale | pico-mac-nano-main/src/tft_2p.c:150-152 | the nearest-neighbour index `i * n / d` of a band position is a valid source index below n |
| Geometry.ScaleIsNearest | pico-mac-nano-main/src/tft_2p.c:150-152 | the chosen source pixel s satisfies s * d <= i * n < (s + 1) * d, so its share of the band contains i |
| Geometry.ScaleMonotone | pico-mac-nano-main/src/tft_2p.c:150-152 | a position further along the band never maps to an earlier source pixel |
| Geometry.ScaleIdentity | pico-mac-nano-main/src/tft_2p.c:150-152 | a band as long as the source maps every position to itself |
| Geometry.ProductsFit | pico-mac-nano-main/src/tft_2p.c:150-152 | the `uint32_t` products `x * FB_WIDTH` and `(y - y_pad) * FB_HEIGHT` never wrap for any valid configuration |
| Geometry.RowOffsetFits | pico-mac-nano-main/src/tft_2p.c:121 | the `uint32_t` product `src_y * src_stride_words` never wraps for any row of the source |
| Geometry.MacFit | pico-mac-nano-main/src/tft_2p.c:132-140 | for 512 x 342 on the default 240 x 320 panel the configuration is valid and the fit is a 240 x 160 image, x_pad 0, y_pad 80 |
| Geometry.SameSizeIsIdentity | pico-mac-nano-main/src/tft_2p.c:132-140 | a panel the size of the framebuffer gets the whole panel and no padding |
| Renderer.SamplePixel | pico-mac-nano-main/src/tft_2p.c:120-126 | `st7789_sample_pixel` returns only 0xFFFF or 0x0000, and 0xFFFF exactly when bit `31 - (x & 31)` of word `y * stride + (x >> 5)` is set |
| Renderer.SampleReadsBitmap | pico-mac-nano-main/src/tft_2p.c:120-126 | sampling a packed bitmap returns 0xFFFF for a set pixel and 0x0000 for a clear one, at every in-range coordinate |
| Renderer.SampleInBounds | pico-mac-nano-main/src/tft_2p.c:121-122 | for any source coordinate inside FB_WIDTH x FB_HEIGHT, the word index `src_y * stride + (src_x >> 5)` lies inside the framebuffer |
| Renderer.SrcX | pico-mac-nano-main/src/tft_2p.c:152 | `x * FB_WIDTH / active_w` is a column of the source for every x of the band |
| Renderer.SrcY | pico-mac-nano-main/src/tft_2p.c:150 | `(y - y_pad) * FB_HEIGHT / active_h` is a row of the source for every row of the band |
| Renderer.PixelOfBitmap | pico-mac-nano-main/src/tft_2p.c:146-157 | a rendered bitmap shows white at a panel pixel if and only if the pixel is inside the fitted rectangle and its nearest source pixel is set |
| Renderer.SerializeRoundTrip | pico-mac-nano-main/src/tft_2p.c:155-156 | the panel rebuilds every RGB565 colour of a row from the high-then-low byte pairs sent |
| Renderer.DeserializeRoundTrip | pico-mac-nano-main/src/tft_2p.c:155-156 | every even-length byte stream is the serialisation of the colours it decodes to |
| Renderer.SerializeAt | pico-mac-nano-main/src/tft_2p.c:155-156 | colour i sits at bytes 2i (`color >> 8`) and 2i + 1 (`color & 0xFF`) |
| Renderer.RenderFrame | pico-mac-nano-main/src/tft_2p.c:128-164 | the bus receives the address window for the whole panel, RAMWR, then TFT_HEIGHT row writes of the specified row bytes in order, then CS released; the line buffer is left holding the last row |
| Renderer.DrawRow | pico-mac-nano-main/src/tft_2p.c:147-158 | after the memset and the column loop, the line buffer holds exactly the specified bytes of row y |
| Renderer.PartialStep | pico-mac-nano-main/src/tft_2p.c:151-156 | one round of the column loop sets panel column x_pad + x to the sample of source pixel (src_x, src_y) and leaves the other columns as they were |
| Renderer.LineIsRow | pico-mac-nano-main/src/tft_2p.c:147-158 | a line buffer filled for every column of the band, or zeroed outside it, equals the row's bytes |
| Renderer.RowWritesInOrder | pico-mac-nano-main/src/tft_2p.c:146-161 | the i-th write of the frame loop is row i's bytes, TFT_WIDTH * 2 of them |
| Renderer.RowsReceived | pico-mac-nano-main/src/tft_2p.c:146-161 | with CS low and DC high, the row writes reach the panel as the concatenated rows, all as data, and leave CS and DC unchanged |
| Renderer.FrameReceived | pico-mac-nano-main/src/tft_2p.c:142-163 | from any initial pin levels, the panel receives the window commands, RAMWR, then every row's bytes as data, and is left deselected |
| Renderer.BlankRow | pico-mac-nano-main/src/tft_2p.c:147-149 | a row outside the band is sent as TFT_WIDTH * 2 zero bytes |
| Renderer.PaddingColumnBytes | pico-mac-nano-main/src/tft_2p.c:147-154 | in every row, a column left of x_pad or right of the rectangle is sent as two zero bytes |
| Renderer.ActiveColumnBytes | pico-mac-nano-main/src/tft_2p.c:150-156 | in a row of the band, panel column x_pad + x carries the high and low byte of the sample at (x * FB_WIDTH / active_w, (y - y_pad) * FB_HEIGHT / active_h) |
| Renderer.SrcYMonotone | pico-mac-nano-main/src/tft_2p.c:150 | lower panel rows of the band never show higher source rows |
| Renderer.SrcXMonotone | pico-mac-nano-main/src/tft_2p.c:152 | columns further right never show source columns further left |
| Renderer.AllSetShowsRectangle | pico-mac-nano-main/src/tft_2p.c:146-157 | an all-white framebuffer lights exactly the fitted rectangle |
| Renderer.MacTopLeftEight | pico-mac-nano-main/src/tft_2p.c:146-157 | in the default configuration, a framebuffer whose only set pixels are the first 8 of row 0 lights exactly panel row 80, columns 0 to 3 |
| Renderer.MacFirstRow | pico-mac-nano-main/src/tft_2p.c:150 | in the default configuration, panel row y of the band shows source row 0 exactly when y = 80 |
| Renderer.MacFirstColumns | pico-mac-nano-main/src/tft_2p.c:152 | in the default configuration, panel column x shows one of the first 8 source columns exactly when x < 4 |
| Renderer.SameSizeShowsSource | pico-mac-nano-main/src/tft_2p.c:146-157 | on a panel the size of the source, every panel pixel is the sample of the same source pixel |
| Spi.TaggedAppend | pico-mac-nano-main/src/tft_2p.c:67-69 | receiving two writes in a row is receiving their concatenation |
| Spi.DecodeAppend | pico-mac-nano-main/src/tft_2p.c:63-83 | what the panel receives from two traces in sequence is what it receives from the first, then from the second starting at the pin levels the first left |
| Spi.CommandReceived | pico-mac-nano-main/src/tft_2p.c:71-76 | from any pin levels, `tft_write_command` delivers exactly one command byte and leaves CS high and DC low |
| Spi.DataReceived | pico-mac-nano-main/src/tft_2p.c:78-83 | from any pin levels, `tft_write_data` delivers its bytes as data, in order, and leaves CS high and DC high |
| Spi.AddrWindowReceived | pico-mac-nano-main/src/tft_2p.c:89-105 | the panel receives CASET with x0, x1 and RASET with y0, y1 as big-endian pairs, and parsing them gives back exactly the window requested |
| Spi.BeginPixelsReceived | pico-mac-nano-main/src/tft_2p.c:107-114 | RAMWR arrives as a command, and the panel is left selected with DC high, ready for pixel data |
| Spi.PixelStreamReceived | pico-mac-nano-main/src/tft_2p.c:107-118 | a body sent between begin_pixels and end_pixels with CS low and DC high arrives whole as data after RAMWR, and CS ends released |
| Spi.SpiBus.Emit | pico-mac-nano-main/src/tft_2p.c:63-69 | one pin change or SPI write is appended to the trace and moves the pin levels as the bus replay says, keeping the bus consistent |
| Spi.SpiBus.Select | pico-mac-nano-main/src/tft_2p.c:63-65 | CS is driven to the inverse of `select`, DC is untouched |
| Spi.SpiBus.PutDc | pico-mac-nano-main/src/tft_2p.c:72 | DC is driven to the given level, CS is untouched |
| Spi.SpiBus.SpiWrite | pico-mac-nano-main/src/tft_2p.c:67-69 | the bytes are written to the bus and no pin changes |
| Spi.SpiBus.WriteCommand | pico-mac-nano-main/src/tft_2p.c:71-76 | DC low, select, the one command byte, deselect |
| Spi.SpiBus.WriteData | pico-mac-nano-main/src/tft_2p.c:78-83 | DC high, select, the data bytes, deselect |
| Spi.SpiBus.WriteDataU8 | pico-mac-nano-main/src/tft_2p.c:85-87 | the same as a one-byte data write |
| Spi.SpiBus.SetAddrWindow | pico-mac-nano-main/src/tft_2p.c:89-105 | CASET, then x0 and x1 as big-endian byte pairs, then RASET, then y0 and y1, each as its own command or data transaction |
| Spi.SpiBus.BeginPixels | pico-mac-nano-main/src/tft_2p.c:107-114 | DC low, select, RAMWR, DC high, leaving CS held low |
| Spi.SpiBus.EndPixels | pico-mac-nano-main/src/tft_2p.c:116-118 | CS is released, DC unchanged |
| BitBang.MsbFirstRoundTrip | pico-mac-nano-main/src/tft_2p.c:178-188 | the eight bits sent most significant first determine the byte: the receiver rebuilds it |
| BitBang.NineBitsRoundTrip | pico-mac-nano-main/src/tft_2p.c:194-216 | the first of the nine bits is the command/data flag and the other eight rebuild the byte |
| BitBang.ClockOutAppend | pico-mac-nano-main/src/tft_2p.c:178-188 | clocking one more bit appends that bit's MOSI and clock events |
| BitBang.SampledAppend | pico-mac-nano-main/src/tft_2p.c:168-220 | what the receiver samples from two traces in sequence is what it samples from each, the second starting at the levels the first left |
| BitBang.ClockOutSampled | pico-mac-nano-main/src/tft_2p.c:178-188 | while CS is low, each clocked-out bit is sampled exactly once, in order, and CS stays low |
| BitBang.TransferSampled | pico-mac-nano-main/src/tft_2p.c:168-220 | from any pin levels, one transfer delivers exactly its nine bits, flag first, and leaves CS high |
| BitBang.ClockOutKeepsCs | pico-mac-nano-main/src/tft_2p.c:178-188 | the bit loop never touches CS |
| BitBang.ShiftedIsShift | pico-mac-nano-main/src/tft_2p.c:187 | i rounds of `comm <<= 1` on an unsigned char equal one shift by i, truncated to eight bits |
| BitBang.TopBitAfterShifts | pico-mac-nano-main/src/tft_2p.c:179 | after i shifts, `comm & 0x80` is bit i of the original byte counted from the top |
| BitBang.NextBit | pico-mac-nano-main/src/tft_2p.c:178-188 | round i of the loop sends the next bit of the byte, most significant first |
| BitBang.DataA5 | pico-mac-nano-main/src/tft_2p.c:194-216 | the data byte 0xA5 goes out as 1, then 1 0 1 0 0 1 0 1 |
| BitBang.BitBangPort.Put | pico-mac-nano-main/src/tft_2p.c:172 | one `gpio_put` is appended to the pin trace |
| BitBang.BitBangPort.ClockBit | pico-mac-nano-main/src/tft_2p.c:179-186 | MOSI is set to the bit, then CLK goes low and high |
| BitBang.BitBangPort.ShiftOut | pico-mac-nano-main/src/tft_2p.c:178-188 | the eight-round shift loop clocks out the byte's bits most significant first |
| BitBang.BitBangPort.Transfer | pico-mac-nano-main/src/tft_2p.c:172-189 | CS low, the flag bit, the eight bits of the byte, CS high |
| BitBang.BitBangPort.WriteCom | pico-mac-nano-main/src/tft_2p.c:168-191 | a command transfer: flag bit 0, then the command byte |
| BitBang.BitBangPort.WriteDat | pico-mac-nano-main/src/tft_2p.c:194-220 | a data transfer: flag bit 1, then the data byte |

## Left out

- `tft_init` (the reset pulse, the controller command sequences, GPIO and SPI setup) is
  not modelled. It is a fixed list of calls to the helpers modelled here,
  with delays between them.
- `sleep_us` / `sleep_ms` pauses and `put_pixel_red` (the activity LED) are left out. They
  have no effect on what the panel receives.
- `spi_write_blocking` and `gpio_put` are SDK calls. They are modelled as events on the
  bus trace; the SPI peripheral's timing and clock rate are not modelled.
- The `#if` selection between the hardware-SPI and bit-bang builds is not modelled; both
  halves are modelled separately.
- Renderer.RenderFrame: the static `line_bytes` array becomes an `array<byte>` parameter
  of length TFT_WIDTH * 2. Being static, it cannot alias the framebuffer, so the model
  takes the framebuffer as a value (`seq<u32>`) rather than as memory.
- Renderer.RenderFrame: the framebuffer must hold at least FB_HEIGHT * FB_WIDTH / 32
  words (`FramebufferFits`). The C code reads through a raw pointer and trusts its caller
  for this.
- Renderer.RenderFrame: the panel's own memory (how RAMWR data is written into the address
  window) is not modelled. The proofs stop at the byte stream the panel receives, in
  which every RGB565 pixel is a high/low byte pair.
- Geometry.Valid: configurations where `TFT_WIDTH * FB_HEIGHT` or `TFT_HEIGHT * FB_WIDTH`
  overflows a C `int` are excluded rather than modelled with wrap-around.
- Geometry.Valid: it bounds `TFT_HEIGHT * FB_HEIGHT` and `TFT_WIDTH * FB_WIDTH` below 2^32.
  The code only forms `(y - y_pad) * FB_HEIGHT` with `y - y_pad < active_h` and
  `x * FB_WIDTH` with `x < active_w`, so a few configurations whose products never wrap
  are excluded too. Configurations that do wrap are not modelled.
- Geometry.Valid: configurations where `TFT_X_OFFSET + TFT_WIDTH - 1` or
  `TFT_Y_OFFSET + TFT_HEIGHT - 1` does not fit the `uint16_t` parameters of
  `tft_set_addr_window` (truncation at lines 89 and 142-143) are excluded.
- Geometry.Valid: configurations whose framebuffer exceeds 2^32 words
  (`FB_HEIGHT * FB_WIDTH / 32 > 2^32`) are excluded. There `src_y * src_stride_words` at
  line 121 could wrap, but no 32-bit address space holds such a framebuffer.
- The default constants are far from all these limits (`Geometry.MacFit`,
  `Geometry.ProductsFit`).
- BitBang.BitBangPort.Transfer: the `static int` loop counters of `tft_write_com` and
  `tft_write_dat` become local variables; their values are not observable after the call.
