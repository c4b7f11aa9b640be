/** The bit-banged 3-wire serial link of `tft_write_com` and `tft_write_dat`: each byte is sent
    as nine bits under chip select, a mode bit (0 for a command, 1 for data) and then the
    byte, most significant bit first, MOSI set before each low-then-high pulse of CLK. The
    panel samples MOSI on each rising CLK edge while CS is low; `Sampled` is that side. */
module BitBang {

  datatype Pin = Cs | Mosi | Clk

  /** `gpio_put(pin, high)`. */
  datatype PinEvent = Put(pin: Pin, high: bool)

  /** Bit i of b counted from the most significant end: `b & 0x80` after i shifts left. */
  function MsbBit(b: bv8, i: nat): bool
    requires i < 8
  {
    (b >> (7 - i)) & 1 == 1
  }

  /** The eight bits of b, most significant first. */
  function MsbFirst(b: bv8): (bits: seq<bool>)
    ensures |bits| == 8
  {
    seq(8, i requires 0 <= i < 8 => MsbBit(b, i))
  }

  /** The byte whose bits, most significant first, are `bits`. */
  function FromMsbFirst(bits: seq<bool>): bv8
    requires |bits| == 8
  {
    (if bits[0] then 0x80 else 0) | (if bits[1] then 0x40 else 0)
    | (if bits[2] then 0x20 else 0) | (if bits[3] then 0x10 else 0)
    | (if bits[4] then 0x08 else 0) | (if bits[5] then 0x04 else 0)
    | (if bits[6] then 0x02 else 0) | (if bits[7] then 0x01 else 0)
  }

  /** No bit is lost: the receiver rebuilds every byte from its eight bits. */
  lemma MsbFirstRoundTrip(b: bv8)
    ensures FromMsbFirst(MsbFirst(b)) == b
  {
  }

  /** The nine bits on the wire: the mode bit, then the byte. */
  function NineBits(mode: bool, b: bv8): (bits: seq<bool>)
    ensures |bits| == 9
  {
    [mode] + MsbFirst(b)
  }

  /** A nine-bit word as the panel reads it: data or command, and the byte. */
  lemma NineBitsRoundTrip(mode: bool, b: bv8)
    ensures NineBits(mode, b)[0] == mode
    ensures FromMsbFirst(NineBits(mode, b)[1..]) == b
  {
    assert NineBits(mode, b)[1..] == MsbFirst(b);
    MsbFirstRoundTrip(b);
  }

  /** One bit: MOSI to its value, then CLK low, then high. */
  function BitEvents(bit: bool): seq<PinEvent> {
    [Put(Mosi, bit), Put(Clk, false), Put(Clk, true)]
  }

  /** The bits clocked out one after another. */
  function ClockOut(bits: seq<bool>): (t: seq<PinEvent>)
    ensures |t| == 3 * |bits|
    decreases |bits|
  {
    if bits == [] then [] else BitEvents(bits[0]) + ClockOut(bits[1..])
  }

  lemma {:induction false} ClockOutAppend(bits: seq<bool>, bit: bool)
    ensures ClockOut(bits + [bit]) == ClockOut(bits) + BitEvents(bit)
    decreases |bits|
  {
    if bits == [] {
      assert [] + [bit] == [bit];
      assert [bit][1..] == [];
    } else {
      assert (bits + [bit])[1..] == bits[1..] + [bit];
      ClockOutAppend(bits[1..], bit);
    }
  }

  /** One call of `tft_write_com` (mode false) or `tft_write_dat` (mode true). */
  function TransferEvents(mode: bool, b: bv8): seq<PinEvent> {
    [Put(Cs, false)] + ClockOut(NineBits(mode, b)) + [Put(Cs, true)]
  }

  /** The levels of the three pins. */
  datatype Levels = Levels(cs: bool, mosi: bool, clk: bool)

  function Apply(s: Levels, e: PinEvent): Levels {
    match e.pin
    case Cs => s.(cs := e.high)
    case Mosi => s.(mosi := e.high)
    case Clk => s.(clk := e.high)
  }

  /** The levels after a trace. */
  function Final(t: seq<PinEvent>, s: Levels): Levels
    decreases |t|
  {
    if t == [] then s else Final(t[1..], Apply(s, t[0]))
  }

  /** The bits the panel takes in: MOSI at each rising edge of CLK while CS is low. */
  function Sampled(t: seq<PinEvent>, s: Levels): seq<bool>
    decreases |t|
  {
    if t == [] then []
    else
      (if t[0] == Put(Clk, true) && !s.clk && !s.cs then [s.mosi] else [])
      + Sampled(t[1..], Apply(s, t[0]))
  }

  lemma {:induction false} SampledAppend(t: seq<PinEvent>, u: seq<PinEvent>, s: Levels)
    ensures Final(t + u, s) == Final(u, Final(t, s))
    ensures Sampled(t + u, s) == Sampled(t, s) + Sampled(u, Final(t, s))
    decreases |t|
  {
    if t == [] {
      assert t + u == u;
    } else {
      assert (t + u)[0] == t[0];
      assert (t + u)[1..] == t[1..] + u;
      SampledAppend(t[1..], u, Apply(s, t[0]));
    }
  }

  /** Under chip select, each clocked-out bit is sampled once, in order; CS stays low and
      MOSI is left at the last bit. */
  lemma {:induction false} ClockOutSampled(bits: seq<bool>, s: Levels)
    requires !s.cs
    ensures Sampled(ClockOut(bits), s) == bits
    ensures !Final(ClockOut(bits), s).cs
    decreases |bits|
  {
    if bits != [] {
      var one := BitEvents(bits[0]);
      var s1 := Levels(false, bits[0], true);
      SampledAppend(one, ClockOut(bits[1..]), s);
      assert one[1..][1..][1..] == [];
      assert Final(one, s) == s1;
      assert Sampled(one, s) == [bits[0]];
      ClockOutSampled(bits[1..], s1);
    }
  }

  /** Every transfer, from any pin levels, delivers exactly its nine bits, the mode bit first,
      and leaves the chip deselected. */
  lemma TransferSampled(mode: bool, b: bv8, s: Levels)
    ensures Sampled(TransferEvents(mode, b), s) == NineBits(mode, b)
    ensures |Sampled(TransferEvents(mode, b), s)| == 9
    ensures Final(TransferEvents(mode, b), s).cs
  {
    var bits := NineBits(mode, b);
    var s0 := s.(cs := false);
    assert Sampled([Put(Cs, false)], s) == [] && Final([Put(Cs, false)], s) == s0;
    SampledAppend([Put(Cs, false)], ClockOut(bits), s);
    ClockOutSampled(bits, s0);
    SampledAppend([Put(Cs, false)] + ClockOut(bits), [Put(Cs, true)], s);
  }

  /** CS does not move while the bits are clocked out. */
  lemma {:induction false} ClockOutKeepsCs(bits: seq<bool>, i: nat)
    requires i < |ClockOut(bits)|
    ensures ClockOut(bits)[i].pin != Cs
    decreases |bits|
  {
    if i >= 3 {
      ClockOutKeepsCs(bits[1..], i - 3);
    }
  }

  /** The byte after i rounds of `b <<= 1` on an eight-bit unsigned char. */
  function Shifted(b: bv8, i: nat): bv8
    requires i <= 8
  {
    if i == 0 then b else Shifted(b, i - 1) << 1
  }

  /** i rounds of shifting by one are one shift by i. */
  lemma {:induction false} ShiftedIsShift(b: bv8, i: nat)
    requires i <= 8
    ensures Shifted(b, i) == b << i
  {
    if i > 0 {
      ShiftedIsShift(b, i - 1);
      ShiftOnce(b, i - 1);
    }
  }

  lemma ShiftOnce(b: bv8, i: nat)
    requires i < 8
    ensures (b << i) << 1 == b << (i + 1)
  {
  }

  /** After i rounds of the shift loop, the top bit of the byte is its i-th bit from the top. */
  lemma TopBitAfterShifts(b: bv8, i: nat)
    requires i < 8
    ensures (Shifted(b, i) & 0x80 != 0) == MsbBit(b, i)
  {
    ShiftedIsShift(b, i);
  }

  /** Round i of the shift loop sends the next bit of the byte. */
  lemma NextBit(b: bv8, i: nat)
    requires i < 8
    ensures MsbFirst(b)[..i + 1] == MsbFirst(b)[..i] + [Shifted(b, i) & 0x80 != 0]
  {
    TopBitAfterShifts(b, i);
    var bits := MsbFirst(b);
    assert bits[i] == MsbBit(b, i);
    assert bits[..i + 1] == bits[..i] + [bits[i]];
  }

  /** The data byte 0xA5 goes out as 1 (data), then 1, 0, 1, 0, 0, 1, 0, 1. */
  lemma DataA5()
    ensures NineBits(true, 0xA5) == [true, true, false, true, false, false, true, false, true]
  {
  }

  /** The GPIO pins of the bit-banged link and everything written to them. */
  class BitBangPort {
    var trace: seq<PinEvent>

    constructor()
      ensures trace == []
    {
      trace := [];
    }

    /** `gpio_put`. */
    method Put(pin: Pin, high: bool)
      modifies this
      ensures trace == old(trace) + [PinEvent.Put(pin, high)]
    {
      trace := trace + [PinEvent.Put(pin, high)];
    }

    /** One bit: MOSI to its value (the `if`/`else` on the top bit), then a CLK pulse. */
    method ClockBit(bit: bool)
      modifies this
      ensures trace == old(trace) + BitEvents(bit)
    {
      Put(Mosi, bit);
      Put(Clk, false);
      Put(Clk, true);
    }

    /** Chip select, the mode bit, the byte, chip deselect. The LED and the pauses are left
        out. */
    method Transfer(mode: bool, b: bv8)
      modifies this
      ensures trace == old(trace) + TransferEvents(mode, b)
    {
      Put(Cs, false);
      ClockBit(mode);
      ShiftOut(b);
      Put(Cs, true);
      assert ClockOut(NineBits(mode, b)) == BitEvents(mode) + ClockOut(MsbFirst(b)) by {
        assert NineBits(mode, b)[1..] == MsbFirst(b);
      }
    }

    /** The loop of eight rounds: the top bit `b & 0x80` clocked out, then `b <<= 1`
        (truncating to eight bits). */
    method ShiftOut(b: bv8)
      modifies this
      ensures trace == old(trace) + ClockOut(MsbFirst(b))
    {
      var d := b;
      var i := 0;
      while i < 8
        invariant 0 <= i <= 8
        invariant d == Shifted(b, i)
        invariant trace == old(trace) + ClockOut(MsbFirst(b)[..i])
      {
        NextBit(b, i);
        var bit := d & 0x80 != 0;
        ClockBit(bit);
        ClockOutAppend(MsbFirst(b)[..i], bit);
        d := d << 1;
        i := i + 1;
      }
      assert MsbFirst(b)[..8] == MsbFirst(b);
    }

    /** `tft_write_com`: mode bit 0, then the command byte. */
    method WriteCom(comm: bv8)
      modifies this
      ensures trace == old(trace) + TransferEvents(false, comm)
    {
      Transfer(false, comm);
    }

    /** `tft_write_dat`: mode bit 1, then the data byte. */
    method WriteDat(datt: bv8)
      modifies this
      ensures trace == old(trace) + TransferEvents(true, datt)
    {
      Transfer(true, datt);
    }
  }
}
