/**
 * The TLC59731 single-wire LED transmitter.
 *
 * The driver bit-bangs one output pin: every routine is a fixed sequence of
 * pin writes (`digitalWrite`) and busy waits (`delayMicroseconds`). The model
 * records what happens on the pin as an append-only trace of events, so that
 * each routine becomes a method that extends the trace, and what the receiving
 * chip sees (bit order, pulse counts, durations, the final line level, the
 * bytes it decodes) becomes a function of that trace.
 */
module TLC59731 {

  import opened Options
  import opened Bytes

  /** What happens on the pin: a write of a level, or a wait of `us` time units. */
  datatype Event = High | Low | Delay(us: nat)

  /** Width of a pulse on the wire, in time units. */
  const DELAY: nat := 1
  /** Wait that completes the cycle of a "0" bit. */
  const T_CYCLE_0: nat := 4
  /** Wait that completes the cycle of a "1" bit. */
  const T_CYCLE_1: nat := 1
  /** Idle time after the last data bit of one LED. */
  const END_OF_SEQUENCE: nat := 140
  /** Idle time that makes a chain of chips latch the grayscale data. */
  const GS_DATA_LATCH: nat := 280
  /** The write command that precedes the three data bytes. */
  const START_PATTERN: uint8 := 0x3A

  // ---------------------------------------------------------------------------
  // Measures of a trace

  /** The number of writes of High in t. */
  function HighCount(t: seq<Event>): (n: nat)
    ensures n <= |t|
  {
    if t == [] then 0 else (if t[0] == High then 1 else 0) + HighCount(t[1..])
  }

  /** The total time spent waiting in t. */
  function TotalDelay(t: seq<Event>): nat
  {
    if t == [] then 0 else (if t[0].Delay? then t[0].us else 0) + TotalDelay(t[1..])
  }

  /** The last pin write of t, if any: the level the line is left at. */
  function LastWrite(t: seq<Event>): (r: Option<Event>)
    ensures r.Some? ==> r.value in t && !r.value.Delay?
    ensures r.None? ==> forall e :: e in t ==> e.Delay?
  {
    if t == [] then None
    else if !t[|t| - 1].Delay? then Some(t[|t| - 1])
    else LastWrite(t[..|t| - 1])
  }

  lemma {:induction false} HighCountAppend(a: seq<Event>, b: seq<Event>)
    ensures HighCount(a + b) == HighCount(a) + HighCount(b)
  {
    if a == [] {
      assert a + b == b;
    } else {
      assert (a + b)[1..] == a[1..] + b;
      HighCountAppend(a[1..], b);
    }
  }

  lemma {:induction false} TotalDelayAppend(a: seq<Event>, b: seq<Event>)
    ensures TotalDelay(a + b) == TotalDelay(a) + TotalDelay(b)
  {
    if a == [] {
      assert a + b == b;
    } else {
      assert (a + b)[1..] == a[1..] + b;
      TotalDelayAppend(a[1..], b);
    }
  }

  /** Appending only waits does not change the level the line is left at. */
  lemma {:induction false} LastWriteAppendDelays(a: seq<Event>, b: seq<Event>)
    requires forall e :: e in b ==> e.Delay?
    ensures LastWrite(a + b) == LastWrite(a)
  {
    if b == [] {
      assert a + b == a;
    } else {
      assert (a + b)[..|a + b| - 1] == a + b[..|b| - 1];
      assert b[|b| - 1] in b;
      LastWriteAppendDelays(a, b[..|b| - 1]);
    }
  }

  /** Appending a trace with a pin write in it leaves the line at b's last level. */
  lemma {:induction false} LastWriteAppendWrite(a: seq<Event>, b: seq<Event>)
    requires LastWrite(b).Some?
    ensures LastWrite(a + b) == LastWrite(b)
  {
    assert b != [];
    if !b[|b| - 1].Delay? {
    } else {
      assert (a + b)[..|a + b| - 1] == a + b[..|b| - 1];
      LastWriteAppendWrite(a, b[..|b| - 1]);
    }
  }

  // ---------------------------------------------------------------------------
  // The bit slots

  /** One "0" bit: a pulse, then the line stays low until the cycle times out. */
  function ZeroSlot(): seq<Event>
  {
    [High, Delay(DELAY), Low, Delay(DELAY), Delay(T_CYCLE_0)]
  }

  /** One "1" bit: a pulse, then a second pulse inside the same cycle. */
  function OneSlot(): seq<Event>
  {
    [High, Delay(DELAY), Low, Delay(DELAY), High, Delay(DELAY), Low, Delay(T_CYCLE_1)]
  }

  /** A "0" slot has one High write and lasts 6 units; it leaves the line low. */
  lemma ZeroSlotShape()
    ensures HighCount(ZeroSlot()) == 1
    ensures TotalDelay(ZeroSlot()) == 2 * DELAY + T_CYCLE_0 == 6
    ensures LastWrite(ZeroSlot()) == Some(Low)
  {
  }

  /** A "1" slot has two High writes and lasts 4 units; it leaves the line low. */
  lemma OneSlotShape()
    ensures HighCount(OneSlot()) == 2
    ensures TotalDelay(OneSlot()) == 3 * DELAY + T_CYCLE_1 == 4
    ensures LastWrite(OneSlot()) == Some(Low)
  {
  }

  function Slot(b: bool): seq<Event>
  {
    if b then OneSlot() else ZeroSlot()
  }

  /** The pin events of the bits bs sent one after the other. */
  function SlotsTrace(bs: seq<bool>): seq<Event>
  {
    if bs == [] then [] else Slot(bs[0]) + SlotsTrace(bs[1..])
  }

  /** What sending the byte d puts on the pin. */
  function DataTrace(d: uint8): seq<Event>
  {
    SlotsTrace(Bits(d))
  }

  /** What `setLed(out0, out1, out2)` puts on the pin. */
  function LedTrace(out0: uint8, out1: uint8, out2: uint8): seq<Event>
  {
    DataTrace(START_PATTERN) + DataTrace(out0) + DataTrace(out1) + DataTrace(out2)
      + [Delay(END_OF_SEQUENCE)]
  }

  lemma {:induction false} SlotsTraceAppend(a: seq<bool>, b: seq<bool>)
    ensures SlotsTrace(a + b) == SlotsTrace(a) + SlotsTrace(b)
  {
    if a == [] {
      assert a + b == b;
    } else {
      assert (a + b)[1..] == a[1..] + b;
      SlotsTraceAppend(a[1..], b);
      AppendAssoc(Slot(a[0]), SlotsTrace(a[1..]), SlotsTrace(b));
    }
  }

  lemma AppendAssoc(a: seq<Event>, b: seq<Event>, c: seq<Event>)
    ensures a + b + c == a + (b + c)
  {
  }

  /** Sending one more bit extends the trace by that bit's slot. */
  lemma SlotsTracePrefix(bs: seq<bool>, i: nat)
    requires i < |bs|
    ensures SlotsTrace(bs[..i + 1]) == SlotsTrace(bs[..i]) + Slot(bs[i])
  {
    assert bs[..i + 1] == bs[..i] + [bs[i]];
    SlotsTraceAppend(bs[..i], [bs[i]]);
    assert SlotsTrace([bs[i]]) == Slot(bs[i]) + SlotsTrace([]);
  }

  /** The byte d after i executions of `data <<= 1`: bit k holds bit k - i of d. */
  function ShiftedLeft(d: uint8, i: nat): (r: uint8)
    ensures forall k :: i <= k < 8 ==> Bit(r, k) == Bit(d, k - i)
  {
    if i == 0 then d
    else
      var p := ShiftedLeft(d, i - 1);
      BitsShl(p, p << 1);
      p << 1
  }

  /** After i shifts, the mask 0x80 of the loop tests bit 7 - i of the byte first given. */
  lemma ShiftedLeftTopBit(d: uint8, i: nat)
    requires i < 8
    ensures (ShiftedLeft(d, i) & 0x80 != 0) == Bits(d)[i]
  {
    assert (ShiftedLeft(d, i) & 0x80 != 0) == Bit(ShiftedLeft(d, i), 7);
  }

  /** Each "0" bit costs one pulse and 6 units, each "1" bit two pulses and 4 units. */
  lemma {:induction false} SlotsCosts(bs: seq<bool>)
    ensures HighCount(SlotsTrace(bs)) == |bs| + CountTrue(bs)
    ensures TotalDelay(SlotsTrace(bs)) == 6 * (|bs| - CountTrue(bs)) + 4 * CountTrue(bs)
  {
    if bs != [] {
      ZeroSlotShape();
      OneSlotShape();
      SlotsCosts(bs[1..]);
      HighCountAppend(Slot(bs[0]), SlotsTrace(bs[1..]));
      TotalDelayAppend(Slot(bs[0]), SlotsTrace(bs[1..]));
    }
  }

  /** Every bit routine leaves the line low. */
  lemma {:induction false} SlotsEndLow(bs: seq<bool>)
    requires bs != []
    ensures LastWrite(SlotsTrace(bs)) == Some(Low)
  {
    ZeroSlotShape();
    OneSlotShape();
    if bs[1..] == [] {
      assert SlotsTrace(bs) == Slot(bs[0]) + [];
      assert Slot(bs[0]) + [] == Slot(bs[0]);
    } else {
      SlotsEndLow(bs[1..]);
      LastWriteAppendWrite(Slot(bs[0]), SlotsTrace(bs[1..]));
    }
  }

  /** The bit slots wait only for the pulse width and the two cycle timeouts. */
  lemma {:induction false} SlotsWaits(bs: seq<bool>)
    ensures forall e :: e in SlotsTrace(bs) && e.Delay? ==> e.us == DELAY || e.us == T_CYCLE_0
  {
    if bs != [] {
      SlotsWaits(bs[1..]);
    }
  }

  // ---------------------------------------------------------------------------
  // Decoding: what the receiving chip reads off the pin

  /**
   * Splits t into bit slots: a slot whose pulse is followed by a second pulse
   * is a "1", a slot whose pulse is followed by the long timeout is a "0".
   * None when t is not made of whole slots.
   */
  function DecodeSlots(t: seq<Event>): Option<seq<bool>>
    decreases |t|
  {
    if t == [] then Some([])
    else if |t| >= 8 && t[..8] == OneSlot() then
      match DecodeSlots(t[8..])
      case Some(bs) => Some([true] + bs)
      case None => None
    else if |t| >= 5 && t[..5] == ZeroSlot() then
      match DecodeSlots(t[5..])
      case Some(bs) => Some([false] + bs)
      case None => None
    else None
  }

  /** The command byte and the three data bytes of one LED write. */
  datatype Frame = Frame(command: uint8, out0: uint8, out1: uint8, out2: uint8)

  function FrameBits(f: Frame): (bs: seq<bool>)
    ensures |bs| == 32
  {
    Bits(f.command) + Bits(f.out0) + Bits(f.out1) + Bits(f.out2)
  }

  /** The trace of the four bytes of f, then the end-of-sequence wait. */
  function EncodeFrame(f: Frame): seq<Event>
  {
    SlotsTrace(FrameBits(f)) + [Delay(END_OF_SEQUENCE)]
  }

  /** A 32-bit sequence is the concatenation of its four bytes. */
  lemma SplitBytes(bs: seq<bool>)
    requires |bs| == 32
    ensures bs == bs[..8] + bs[8..16] + bs[16..24] + bs[24..]
  {
  }

  /** The frame whose 32 bits, most significant first, are bs. */
  function FrameOfBits(bs: seq<bool>): (f: Frame)
    requires |bs| == 32
    ensures FrameBits(f) == bs
  {
    var f := Frame(FromBits(bs[..8]), FromBits(bs[8..16]), FromBits(bs[16..24]), FromBits(bs[24..]));
    FromBitsRoundTrip(bs[..8]);
    FromBitsRoundTrip(bs[8..16]);
    FromBitsRoundTrip(bs[16..24]);
    FromBitsRoundTrip(bs[24..]);
    SplitBytes(bs);
    f
  }

  /** Reads a whole LED write back off the pin: 32 bit slots, then the end-of-sequence wait. */
  function DecodeFrame(t: seq<Event>): Option<Frame>
  {
    if t == [] || t[|t| - 1] != Delay(END_OF_SEQUENCE) then None
    else
      match DecodeSlots(t[..|t| - 1])
      case Some(bs) => if |bs| == 32 then Some(FrameOfBits(bs)) else None
      case None => None
  }

  /** The slots of bs decode to bs. */
  lemma {:induction false} DecodeSlotsTrace(bs: seq<bool>)
    ensures DecodeSlots(SlotsTrace(bs)) == Some(bs)
  {
    if bs != [] {
      var s, rest := Slot(bs[0]), SlotsTrace(bs[1..]);
      var t := s + rest;
      assert t[..|s|] == s && t[|s|..] == rest;
      DecodeSlotsTrace(bs[1..]);
      assert [bs[0]] + bs[1..] == bs;
      if !bs[0] {
        assert |t| < 8 || t[..8] != OneSlot() by {
          if |t| >= 8 { assert t[4] != OneSlot()[4]; }
        }
      }
    }
  }

  /** A trace that decodes to bs is exactly the slots of bs. */
  lemma {:induction false} SlotsTraceOfDecode(t: seq<Event>, bs: seq<bool>)
    requires DecodeSlots(t) == Some(bs)
    ensures SlotsTrace(bs) == t
    decreases |t|
  {
    if t == [] {
    } else if |t| >= 8 && t[..8] == OneSlot() {
      SlotsTraceOfDecode(t[8..], bs[1..]);
      assert t == t[..8] + t[8..];
    } else {
      SlotsTraceOfDecode(t[5..], bs[1..]);
      assert t == t[..5] + t[5..];
    }
  }

  lemma FrameBitsSlices(f: Frame)
    ensures FrameBits(f)[..8] == Bits(f.command)
    ensures FrameBits(f)[8..16] == Bits(f.out0)
    ensures FrameBits(f)[16..24] == Bits(f.out1)
    ensures FrameBits(f)[24..] == Bits(f.out2)
  {
  }

  /** Distinct frames have distinct bits. */
  lemma FrameBitsInjective(f: Frame, g: Frame)
    requires FrameBits(f) == FrameBits(g)
    ensures f == g
  {
    FrameBitsSlices(f);
    FrameBitsSlices(g);
    BitsInjective(f.command, g.command);
    BitsInjective(f.out0, g.out0);
    BitsInjective(f.out1, g.out1);
    BitsInjective(f.out2, g.out2);
  }

  /** A non-empty trace is its front followed by its last event. */
  lemma SplitLast(t: seq<Event>)
    requires t != []
    ensures t == t[..|t| - 1] + [t[|t| - 1]]
  {
  }

  /** The receiver reads back exactly the four bytes that were sent. */
  lemma DecodeEncodeFrame(f: Frame)
    ensures DecodeFrame(EncodeFrame(f)) == Some(f)
  {
    var t := EncodeFrame(f);
    assert t[..|t| - 1] == SlotsTrace(FrameBits(f));
    DecodeSlotsTrace(FrameBits(f));
    FrameBitsInjective(FrameOfBits(FrameBits(f)), f);
  }

  /** A trace the receiver accepts as a frame is the encoding of that frame and of no other. */
  lemma EncodeDecodeFrame(t: seq<Event>, f: Frame)
    requires DecodeFrame(t) == Some(f)
    ensures EncodeFrame(f) == t
  {
    var body := t[..|t| - 1];
    var bs := DecodeSlots(body).value;
    assert |bs| == 32 && f == FrameOfBits(bs);
    SlotsTraceOfDecode(body, bs);
    SplitLast(t);
    assert EncodeFrame(f) == SlotsTrace(bs) + [Delay(END_OF_SEQUENCE)];
  }

  // ---------------------------------------------------------------------------
  // Properties of the routines' traces

  /** Slot i of a data byte is a "1" slot exactly when bit 7 - i of the byte is set. */
  lemma DataTraceSlots(d: uint8)
    ensures DecodeSlots(DataTrace(d)).Some?
    ensures |DecodeSlots(DataTrace(d)).value| == 8
    ensures forall i :: 0 <= i < 8 ==> DecodeSlots(DataTrace(d)).value[i] == Bit(d, 7 - i)
  {
    DecodeSlotsTrace(Bits(d));
  }

  /** A data byte costs 8 + popcount pulses and 6 units per "0", 4 per "1"; it ends low. */
  lemma DataTraceCosts(d: uint8)
    ensures HighCount(DataTrace(d)) == 8 + Popcount(d)
    ensures TotalDelay(DataTrace(d)) == 6 * (8 - Popcount(d)) + 4 * Popcount(d)
    ensures LastWrite(DataTrace(d)) == Some(Low)
  {
    SlotsCosts(Bits(d));
    CountTrueBits(d);
    SlotsEndLow(Bits(d));
  }

  /** The start pattern 0x3A goes out as the slots 0, 0, 1, 1, 1, 0, 1, 0. */
  lemma StartPatternBits()
    ensures Bits(START_PATTERN) == [false, false, true, true, true, false, true, false]
    ensures Popcount(START_PATTERN) == 4
  {
    CountTrueBits(START_PATTERN);
  }

  /** Sending 0x3A with writeData emits the same events as the eight explicit bit calls of setLed. */
  lemma StartPatternTrace()
    ensures DataTrace(START_PATTERN)
      == ZeroSlot() + ZeroSlot() + OneSlot() + OneSlot() + OneSlot() + ZeroSlot() + OneSlot() + ZeroSlot()
  {
    var bs := Bits(START_PATTERN);
    StartPatternBits();
    assert SlotsTrace(bs[7..]) == ZeroSlot() by {
      assert bs[7..][1..] == [];
      assert ZeroSlot() + [] == ZeroSlot();
    }
    assert bs[6..][1..] == bs[7..];
    assert bs[5..][1..] == bs[6..];
    assert bs[4..][1..] == bs[5..];
    assert bs[3..][1..] == bs[4..];
    assert bs[2..][1..] == bs[3..];
    assert bs[1..][1..] == bs[2..];
    assert bs[0..][1..] == bs[1..];
    assert bs[0..] == bs;
  }

  /** Appending the start pattern to a trace appends its eight slots one after the other. */
  lemma StartPatternAfter(t: seq<Event>)
    ensures t + DataTrace(START_PATTERN)
      == t + ZeroSlot() + ZeroSlot() + OneSlot() + OneSlot() + OneSlot() + ZeroSlot() + OneSlot() + ZeroSlot()
  {
    StartPatternTrace();
    AppendAssoc(t, ZeroSlot() + ZeroSlot() + OneSlot() + OneSlot() + OneSlot() + ZeroSlot() + OneSlot(), ZeroSlot());
    AppendAssoc(t, ZeroSlot() + ZeroSlot() + OneSlot() + OneSlot() + OneSlot() + ZeroSlot(), OneSlot());
    AppendAssoc(t, ZeroSlot() + ZeroSlot() + OneSlot() + OneSlot() + OneSlot(), ZeroSlot());
    AppendAssoc(t, ZeroSlot() + ZeroSlot() + OneSlot() + OneSlot(), OneSlot());
    AppendAssoc(t, ZeroSlot() + ZeroSlot() + OneSlot(), OneSlot());
    AppendAssoc(t, ZeroSlot() + ZeroSlot(), OneSlot());
    AppendAssoc(t, ZeroSlot(), ZeroSlot());
  }

  /** The byte 0xA5 goes out as the slots 1, 0, 1, 0, 0, 1, 0, 1. */
  lemma Example0xA5()
    ensures DecodeSlots(DataTrace(0xA5)) == Some([true, false, true, false, false, true, false, true])
  {
    var bs := Bits(0xA5);
    assert Bit(0xA5, 7) && !Bit(0xA5, 6) && Bit(0xA5, 5) && !Bit(0xA5, 4);
    assert !Bit(0xA5, 3) && Bit(0xA5, 2) && !Bit(0xA5, 1) && Bit(0xA5, 0);
    assert bs == [true, false, true, false, false, true, false, true];
    DecodeSlotsTrace(bs);
  }

  /** An LED write is the frame (0x3A, out0, out1, out2), and the receiver decodes it as such. */
  lemma LedTraceDecodes(out0: uint8, out1: uint8, out2: uint8)
    ensures LedTrace(out0, out1, out2) == EncodeFrame(Frame(START_PATTERN, out0, out1, out2))
    ensures DecodeFrame(LedTrace(out0, out1, out2)) == Some(Frame(START_PATTERN, out0, out1, out2))
  {
    var f := Frame(START_PATTERN, out0, out1, out2);
    var c, a, b := Bits(START_PATTERN), Bits(out0), Bits(out1);
    SlotsTraceAppend(c + a + b, Bits(out2));
    SlotsTraceAppend(c + a, b);
    SlotsTraceAppend(c, a);
    DecodeEncodeFrame(f);
  }

  /** The number of "1" bits in a frame. */
  function Ones(f: Frame): nat
  {
    Popcount(f.command) + Popcount(f.out0) + Popcount(f.out1) + Popcount(f.out2)
  }

  lemma FrameBitsOnes(f: Frame)
    ensures CountTrue(FrameBits(f)) == Ones(f)
  {
    var c, a, b, d := Bits(f.command), Bits(f.out0), Bits(f.out1), Bits(f.out2);
    CountTrueAppend(c + a + b, d);
    CountTrueAppend(c + a, b);
    CountTrueAppend(c, a);
    CountTrueBits(f.command);
    CountTrueBits(f.out0);
    CountTrueBits(f.out1);
    CountTrueBits(f.out2);
  }

  /**
   * A frame goes out as 32 bit slots; its pulse count and duration are the sums
   * of its bits' costs plus the end-of-sequence wait; it leaves the line low.
   */
  lemma FrameCosts(f: Frame)
    ensures DecodeSlots(EncodeFrame(f)[..|EncodeFrame(f)| - 1]) == Some(FrameBits(f))
    ensures HighCount(EncodeFrame(f)) == 32 + Ones(f)
    ensures TotalDelay(EncodeFrame(f)) == 6 * (32 - Ones(f)) + 4 * Ones(f) + END_OF_SEQUENCE
    ensures LastWrite(EncodeFrame(f)) == Some(Low)
  {
    var slots := SlotsTrace(FrameBits(f));
    assert EncodeFrame(f)[..|EncodeFrame(f)| - 1] == slots;
    DecodeSlotsTrace(FrameBits(f));
    FrameBitsOnes(f);
    SlotsCosts(FrameBits(f));
    HighCountAppend(slots, [Delay(END_OF_SEQUENCE)]);
    TotalDelayAppend(slots, [Delay(END_OF_SEQUENCE)]);
    SlotsEndLow(FrameBits(f));
    LastWriteAppendDelays(slots, [Delay(END_OF_SEQUENCE)]);
  }

  /** The costs of `setLed`: the start pattern contributes four "1" bits and four "0" bits. */
  lemma LedTraceCosts(out0: uint8, out1: uint8, out2: uint8)
    ensures var ones := 4 + Popcount(out0) + Popcount(out1) + Popcount(out2);
      && HighCount(LedTrace(out0, out1, out2)) == 32 + ones
      && TotalDelay(LedTrace(out0, out1, out2)) == 6 * (32 - ones) + 4 * ones + END_OF_SEQUENCE
      && LastWrite(LedTrace(out0, out1, out2)) == Some(Low)
  {
    LedTraceDecodes(out0, out1, out2);
    StartPatternBits();
    FrameCosts(Frame(START_PATTERN, out0, out1, out2));
  }

  /** An LED write never waits the latch time: latching is a separate call. */
  lemma LedTraceHasNoLatch(out0: uint8, out1: uint8, out2: uint8)
    ensures Delay(GS_DATA_LATCH) !in LedTrace(out0, out1, out2)
  {
    var f := Frame(START_PATTERN, out0, out1, out2);
    LedTraceDecodes(out0, out1, out2);
    SlotsWaits(FrameBits(f));
  }

  // ---------------------------------------------------------------------------
  // The routines, on a pin

  /** The output pin of the microcontroller, with everything done to it so far. */
  class Transmitter {

    /** The pin number (`mcuPin`) every routine writes to. */
    const pin: int
    /** The events on the pin, oldest first. */
    var trace: seq<Event>

    constructor (pin: int)
      ensures this.pin == pin && trace == []
    {
      this.pin := pin;
      trace := [];
    }

    /** `digitalWrite(mcuPin, HIGH)` or `digitalWrite(mcuPin, LOW)`. */
    method DigitalWrite(high: bool)
      modifies this`trace
      ensures trace == old(trace) + [if high then High else Low]
    {
      trace := trace + [if high then High else Low];
    }

    /** `delayMicroseconds(us)`. */
    method DelayMicroseconds(us: nat)
      modifies this`trace
      ensures trace == old(trace) + [Delay(us)]
    {
      trace := trace + [Delay(us)];
    }

    /** `TLC59731_writeZero`: one pulse, then the "0" timeout. */
    method WriteZero()
      modifies this`trace
      ensures trace == old(trace) + ZeroSlot()
    {
      DigitalWrite(true);
      DelayMicroseconds(DELAY);
      DigitalWrite(false);
      DelayMicroseconds(DELAY);
      DelayMicroseconds(T_CYCLE_0);
    }

    /** `TLC59731_writeOne`: one pulse, then a second pulse, then the "1" timeout. */
    method WriteOne()
      modifies this`trace
      ensures trace == old(trace) + OneSlot()
    {
      DigitalWrite(true);
      DelayMicroseconds(DELAY);
      DigitalWrite(false);
      DelayMicroseconds(DELAY);
      DigitalWrite(true);
      DelayMicroseconds(DELAY);
      DigitalWrite(false);
      DelayMicroseconds(T_CYCLE_1);
    }

    /** `TLC59731_endOfSequence`: the idle time that ends one LED's data. */
    method EndOfSequence()
      modifies this`trace
      ensures trace == old(trace) + [Delay(END_OF_SEQUENCE)]
    {
      DelayMicroseconds(END_OF_SEQUENCE);
    }

    /** `TLC59731_gsDataLatchSequence`: the idle time that latches a chain; no pin writes. */
    method GsDataLatchSequence()
      modifies this`trace
      ensures trace == old(trace) + [Delay(GS_DATA_LATCH)]
      ensures HighCount(trace[|old(trace)|..]) == 0 && TotalDelay(trace[|old(trace)|..]) == GS_DATA_LATCH
    {
      DelayMicroseconds(GS_DATA_LATCH);
      assert trace[|old(trace)|..] == [Delay(GS_DATA_LATCH)];
    }

    /** `TLC59731_writeData`: shifts data out most significant bit first. */
    method WriteData(d: uint8)
      modifies this`trace
      ensures trace == old(trace) + DataTrace(d)
    {
      ghost var bits := Bits(d);
      var data := d;
      var i: nat := 0;
      while i < 8
        invariant i <= 8
        invariant data == ShiftedLeft(d, i)
        invariant trace == old(trace) + SlotsTrace(bits[..i])
      {
        ghost var sent := trace;
        ShiftedLeftTopBit(d, i);
        if data & 0x80 != 0 {
          WriteOne();
        } else {
          WriteZero();
        }
        assert trace == sent + Slot(bits[i]);
        SlotsTracePrefix(bits, i);
        AppendAssoc(old(trace), SlotsTrace(bits[..i]), Slot(bits[i]));
        data := data << 1;
        i := i + 1;
      }
      assert bits[..8] == bits;
    }

    /** `TLC59731_setLed`: the start pattern 0x3A bit by bit, the three data bytes, the end-of-sequence wait. */
    method SetLed(out0: uint8, out1: uint8, out2: uint8)
      modifies this`trace
      ensures trace == old(trace) + LedTrace(out0, out1, out2)
    {
      WriteZero();
      WriteZero();
      WriteOne();
      WriteOne();
      WriteOne();
      WriteZero();
      WriteOne();
      WriteZero();
      StartPatternAfter(old(trace));
      WriteData(out0);
      WriteData(out1);
      WriteData(out2);
      EndOfSequence();
      ghost var d := DataTrace(START_PATTERN);
      AppendAssoc(old(trace), d + DataTrace(out0) + DataTrace(out1) + DataTrace(out2), [Delay(END_OF_SEQUENCE)]);
      AppendAssoc(old(trace), d + DataTrace(out0) + DataTrace(out1), DataTrace(out2));
      AppendAssoc(old(trace), d + DataTrace(out0), DataTrace(out1));
      AppendAssoc(old(trace), d, DataTrace(out0));
    }
  }
}
