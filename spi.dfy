/** The hardware-SPI framing of the panel link: chip select (CS, active low) and the
    data/command line (DC, low for a command byte, high for data) around byte writes.
    The SDK calls `gpio_put` and `spi_write_blocking` are modelled by the events they
    cause on the wires, appended to a trace; `Decode` is the panel's side of the link,
    the reference the framing is proved against. */
module Spi {
  import opened Bits

  /** Column address set, row address set and memory write, the ST7789 commands used here. */
  const CASET: byte := 0x2A
  const RASET: byte := 0x2B
  const RAMWR: byte := 0x2C

  /** A change of the CS or DC pin to a level (true = high), or bytes clocked out on MOSI. */
  datatype Event = CsLevel(high: bool) | DcLevel(high: bool) | Write(bytes: seq<byte>)

  /** The levels of the CS and DC pins. */
  datatype Lines = Lines(cs: bool, dc: bool)

  /** A byte as the panel takes it in: a command when DC was low, data when it was high. */
  datatype Received = Command(code: byte) | Data(value: byte)

  /** The levels after one event. */
  function Step(l: Lines, e: Event): Lines {
    match e
    case CsLevel(h) => l.(cs := h)
    case DcLevel(h) => l.(dc := h)
    case Write(_) => l
  }

  /** The levels after a trace, starting from `l`. */
  function Replay(t: seq<Event>, l: Lines): Lines
    decreases |t|
  {
    if t == [] then l else Replay(t[1..], Step(l, t[0]))
  }

  /** Bytes written while DC is at level `dc`, as the panel classifies them. */
  function Tagged(bs: seq<byte>, dc: bool): (rs: seq<Received>)
    ensures |rs| == |bs|
    ensures forall i :: 0 <= i < |bs| ==> rs[i] == (if dc then Data(bs[i]) else Command(bs[i]))
  {
    seq(|bs|, i requires 0 <= i < |bs| => if dc then Data(bs[i]) else Command(bs[i]))
  }

  /** What the panel receives from a trace, starting from levels `l`: the bytes written while
      CS is low, each tagged by the DC level at the time; bytes written while CS is high are
      not for the panel. */
  function Decode(t: seq<Event>, l: Lines): seq<Received>
    decreases |t|
  {
    if t == [] then []
    else
      (match t[0]
       case Write(bs) => if l.cs then [] else Tagged(bs, l.dc)
       case _ => [])
      + Decode(t[1..], Step(l, t[0]))
  }

  lemma TaggedAppend(a: seq<byte>, b: seq<byte>, dc: bool)
    ensures Tagged(a + b, dc) == Tagged(a, dc) + Tagged(b, dc)
  {
  }

  /** Decoding is compositional: a trace split in two decodes as its halves, the second half
      starting from the levels the first one leaves. */
  lemma {:induction false} DecodeAppend(t: seq<Event>, u: seq<Event>, l: Lines)
    ensures Replay(t + u, l) == Replay(u, Replay(t, l))
    ensures Decode(t + u, l) == Decode(t, l) + Decode(u, Replay(t, l))
    decreases |t|
  {
    if t != [] {
      assert (t + u)[0] == t[0];
      assert (t + u)[1..] == t[1..] + u;
      DecodeAppend(t[1..], u, Step(l, t[0]));
    } else {
      assert t + u == u;
    }
  }

  /** `tft_write_command`: DC low, select, the command byte, deselect. */
  function CommandEvents(code: byte): seq<Event> {
    [DcLevel(false), CsLevel(false), Write([code]), CsLevel(true)]
  }

  /** `tft_write_data`: DC high, select, the bytes, deselect. */
  function DataEvents(bs: seq<byte>): seq<Event> {
    [DcLevel(true), CsLevel(false), Write(bs), CsLevel(true)]
  }

  /** The four parameter bytes of CASET or RASET: start and end, each high byte first. */
  function Coords(first: u16, last: u16): seq<byte> {
    [Hi(first), Lo(first), Hi(last), Lo(last)]
  }

  /** `tft_set_addr_window`: CASET with the columns, then RASET with the rows. */
  function AddrWindowEvents(x0: u16, y0: u16, x1: u16, y1: u16): seq<Event> {
    CommandEvents(CASET) + DataEvents(Coords(x0, x1)) + CommandEvents(RASET) + DataEvents(Coords(y0, y1))
  }

  /** `tft_begin_pixels`: RAMWR as a command, then DC high with CS left low, so that every
      byte written until `tft_end_pixels` is pixel data. */
  function BeginPixelsEvents(): seq<Event> {
    [DcLevel(false), CsLevel(false), Write([RAMWR]), DcLevel(true)]
  }

  /** `tft_end_pixels`: deselect. */
  function EndPixelsEvents(): seq<Event> {
    [CsLevel(true)]
  }

  /** Decoding a four-event trace, one event at a time. */
  lemma FourEvents(t: seq<Event>, l: Lines)
    requires |t| == 4
    ensures var l1 := Step(l, t[0]); var l2 := Step(l1, t[1]); var l3 := Step(l2, t[2]);
      && Replay(t, l) == Step(l3, t[3])
      && Decode(t, l) == Decode([t[0]], l) + Decode([t[1]], l1) + Decode([t[2]], l2) + Decode([t[3]], l3)
  {
    var l1 := Step(l, t[0]);
    var l2 := Step(l1, t[1]);
    var l3 := Step(l2, t[2]);
    assert t == [t[0]] + [t[1]] + [t[2]] + [t[3]];
    DecodeAppend([t[0]] + [t[1]] + [t[2]], [t[3]], l);
    DecodeAppend([t[0]] + [t[1]], [t[2]], l);
    DecodeAppend([t[0]], [t[1]], l);
  }

  /** A command frame delivers exactly its byte, as a command, whatever the levels before it,
      and leaves the panel deselected. */
  lemma CommandReceived(code: byte, l: Lines)
    ensures Decode(CommandEvents(code), l) == [Command(code)]
    ensures Replay(CommandEvents(code), l) == Lines(true, false)
  {
    var t := CommandEvents(code);
    FourEvents(t, l);
  }

  /** A data frame delivers exactly its bytes, as data, and leaves the panel deselected. */
  lemma DataReceived(bs: seq<byte>, l: Lines)
    ensures Decode(DataEvents(bs), l) == Tagged(bs, true)
    ensures Replay(DataEvents(bs), l) == Lines(true, true)
  {
    var t := DataEvents(bs);
    FourEvents(t, l);
  }

  /** An address window as the panel sees it. */
  datatype Window = Window(x0: u16, y0: u16, x1: u16, y1: u16)

  /** The panel's reading of a CASET/RASET exchange: the command, four data bytes whose
      pairs are big-endian coordinates, the second command, four more. */
  function ParseWindow(rs: seq<Received>): Option<Window> {
    if |rs| == 10 && rs[0] == Command(CASET) && rs[5] == Command(RASET)
       && rs[1].Data? && rs[2].Data? && rs[3].Data? && rs[4].Data?
       && rs[6].Data? && rs[7].Data? && rs[8].Data? && rs[9].Data?
    then Some(Window(Join(rs[1].value, rs[2].value), Join(rs[6].value, rs[7].value),
                     Join(rs[3].value, rs[4].value), Join(rs[8].value, rs[9].value)))
    else None
  }

  datatype Option<T> = None | Some(value: T)

  /** Setting the address window tells the panel exactly the window asked for, from any
      prior levels, and leaves it deselected. */
  lemma AddrWindowReceived(x0: u16, y0: u16, x1: u16, y1: u16, l: Lines)
    ensures Decode(AddrWindowEvents(x0, y0, x1, y1), l)
      == [Command(CASET)] + Tagged(Coords(x0, x1), true) + [Command(RASET)] + Tagged(Coords(y0, y1), true)
    ensures ParseWindow(Decode(AddrWindowEvents(x0, y0, x1, y1), l)) == Some(Window(x0, y0, x1, y1))
    ensures Replay(AddrWindowEvents(x0, y0, x1, y1), l) == Lines(true, true)
  {
    var c1, d1 := CommandEvents(CASET), DataEvents(Coords(x0, x1));
    var c2, d2 := CommandEvents(RASET), DataEvents(Coords(y0, y1));
    CommandReceived(CASET, l);
    DecodeAppend(c1, d1, l);
    DataReceived(Coords(x0, x1), Replay(c1, l));
    DecodeAppend(c1 + d1, c2, l);
    CommandReceived(RASET, Replay(c1 + d1, l));
    DecodeAppend(c1 + d1 + c2, d2, l);
    DataReceived(Coords(y0, y1), Replay(c1 + d1 + c2, l));
    HiLoRoundTrip(x0);
    HiLoRoundTrip(x1);
    HiLoRoundTrip(y0);
    HiLoRoundTrip(y1);
  }

  /** Starting a pixel stream delivers RAMWR as a command and leaves CS low and DC high. */
  lemma BeginPixelsReceived(l: Lines)
    ensures Decode(BeginPixelsEvents(), l) == [Command(RAMWR)]
    ensures Replay(BeginPixelsEvents(), l) == Lines(false, true)
  {
    var t := BeginPixelsEvents();
    FourEvents(t, l);
  }

  /** A pixel stream: after any preamble, RAMWR and then a body of writes that the panel
      takes as `payload` while CS stays low and DC high, then CS released. The panel receives
      the preamble, the command and the payload as data, and is left deselected. */
  lemma PixelStreamReceived(pre: seq<Event>, body: seq<Event>, payload: seq<byte>, l: Lines)
    requires Decode(body, Lines(false, true)) == Tagged(payload, true)
    requires Replay(body, Lines(false, true)) == Lines(false, true)
    ensures Decode(pre + BeginPixelsEvents() + body + EndPixelsEvents(), l)
      == Decode(pre, l) + [Command(RAMWR)] + Tagged(payload, true)
    ensures Replay(pre + BeginPixelsEvents() + body + EndPixelsEvents(), l) == Lines(true, true)
  {
    var b, e := BeginPixelsEvents(), EndPixelsEvents();
    DecodeAppend(pre, b, l);
    BeginPixelsReceived(Replay(pre, l));
    DecodeAppend(pre + b, body, l);
    DecodeAppend(pre + b + body, e, l);
    assert Decode(e, Lines(false, true)) == [];
  }

  /** The bus as the driver drives it: the two pin levels and everything that happened on
      the wires since `start`. */
  class SpiBus {
    var cs: bool
    var dc: bool
    var trace: seq<Event>
    const start: Lines

    /** The pin fields are the levels the trace leaves. */
    predicate Valid()
      reads this
    {
      Replay(trace, start) == Lines(cs, dc)
    }

    constructor(cs0: bool, dc0: bool)
      ensures start == Lines(cs0, dc0) && cs == cs0 && dc == dc0 && trace == []
      ensures Valid()
    {
      cs, dc, trace := cs0, dc0, [];
      start := Lines(cs0, dc0);
    }

    /** Record one event and the levels it leaves. */
    method Emit(e: Event)
      requires Valid()
      modifies this
      ensures trace == old(trace) + [e]
      ensures Lines(cs, dc) == Step(old(Lines(cs, dc)), e)
      ensures Valid()
    {
      DecodeAppend(trace, [e], start);
      trace := trace + [e];
      match e
      case CsLevel(h) => cs := h;
      case DcLevel(h) => dc := h;
      case Write(_) =>
    }

    /** `tft_spi_select`: CS is driven low to select the panel. */
    method Select(select: bool)
      requires Valid()
      modifies this
      ensures trace == old(trace) + [CsLevel(!select)]
      ensures cs == !select && dc == old(dc)
      ensures Valid()
    {
      Emit(CsLevel(!select));
    }

    /** `gpio_put(TFT_DC, high)`. */
    method PutDc(high: bool)
      requires Valid()
      modifies this
      ensures trace == old(trace) + [DcLevel(high)]
      ensures cs == old(cs) && dc == high
      ensures Valid()
    {
      Emit(DcLevel(high));
    }

    /** `tft_spi_write`: the bytes go out on MOSI; the pins do not move. */
    method SpiWrite(bs: seq<byte>)
      requires Valid()
      modifies this
      ensures trace == old(trace) + [Write(bs)]
      ensures cs == old(cs) && dc == old(dc)
      ensures Valid()
    {
      Emit(Write(bs));
    }

    method WriteCommand(code: byte)
      requires Valid()
      modifies this
      ensures trace == old(trace) + CommandEvents(code)
      ensures cs && !dc
      ensures Valid()
    {
      PutDc(false);
      Select(true);
      SpiWrite([code]);
      Select(false);
    }

    method WriteData(bs: seq<byte>)
      requires Valid()
      modifies this
      ensures trace == old(trace) + DataEvents(bs)
      ensures cs && dc
      ensures Valid()
    {
      PutDc(true);
      Select(true);
      SpiWrite(bs);
      Select(false);
    }

    /** `tft_write_data_u8`: a data frame of one byte. */
    method WriteDataU8(value: byte)
      requires Valid()
      modifies this
      ensures trace == old(trace) + DataEvents([value])
      ensures cs && dc
      ensures Valid()
    {
      WriteData([value]);
    }

    method SetAddrWindow(x0: u16, y0: u16, x1: u16, y1: u16)
      requires Valid()
      modifies this
      ensures trace == old(trace) + AddrWindowEvents(x0, y0, x1, y1)
      ensures cs && dc
      ensures Valid()
    {
      WriteCommand(CASET);
      WriteData([x0 / 256, x0 % 256, x1 / 256, x1 % 256]);
      WriteCommand(RASET);
      WriteData([y0 / 256, y0 % 256, y1 / 256, y1 % 256]);
    }

    method BeginPixels()
      requires Valid()
      modifies this
      ensures trace == old(trace) + BeginPixelsEvents()
      ensures !cs && dc
      ensures Valid()
    {
      PutDc(false);
      Select(true);
      SpiWrite([RAMWR]);
      PutDc(true);
    }

    method EndPixels()
      requires Valid()
      modifies this
      ensures trace == old(trace) + EndPixelsEvents()
      ensures cs && dc == old(dc)
      ensures Valid()
    {
      Select(false);
    }
  }
}
