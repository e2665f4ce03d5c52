/**
 * The program of `main.c` above the bus: acquisition of the four channels,
 * the text and swatch drawn for them (`colorRead`), sensor initialisation,
 * the inline device-identity read, and one pass of the polling loop. Bus
 * events and display calls are recorded in one trace.
 */
module Program {
  import opened Types
  import opened Twi
  import opened SensorBus
  import opened Color
  import opened Display
  import Peer

  /** One step of the program that the outside world sees. */
  datatype Event = Bus(bus: BusEvent) | Screen(call: DisplayCall)

  /** Bus events as program events. */
  function Lift(t: seq<BusEvent>): (r: seq<Event>)
    ensures |r| == |t|
    ensures forall i :: 0 <= i < |t| ==> r[i] == Bus(t[i])
  {
    seq(|t|, i requires 0 <= i < |t| => Bus(t[i]))
  }

  /** Display calls as program events. */
  function Draw(calls: seq<DisplayCall>): (r: seq<Event>)
    ensures |r| == |calls|
    ensures forall i :: 0 <= i < |calls| ==> r[i] == Screen(calls[i])
  {
    seq(|calls|, i requires 0 <= i < |calls| => Screen(calls[i]))
  }

  /** The bus events of a trace, in order. */
  function BusOf(t: seq<Event>): seq<BusEvent>
    decreases |t|
  {
    if |t| == 0 then []
    else (if t[0].Bus? then [t[0].bus] else []) + BusOf(t[1..])
  }

  lemma {:induction false} BusOfAppend(a: seq<Event>, b: seq<Event>)
    ensures BusOf(a + b) == BusOf(a) + BusOf(b)
    decreases |a|
  {
    if |a| == 0 {
      assert a + b == b;
    } else {
      assert (a + b)[0] == a[0];
      assert (a + b)[1..] == a[1..] + b;
      BusOfAppend(a[1..], b);
    }
  }

  lemma {:induction false} BusOfLift(t: seq<BusEvent>)
    ensures BusOf(Lift(t)) == t
    decreases |t|
  {
    if |t| > 0 {
      assert Lift(t)[1..] == Lift(t[1..]);
      BusOfLift(t[1..]);
    }
  }

  lemma {:induction false} BusOfDraw(calls: seq<DisplayCall>)
    ensures BusOf(Draw(calls)) == []
    decreases |calls|
  {
    if |calls| > 0 {
      assert Draw(calls)[1..] == Draw(calls[1..]);
      BusOfDraw(calls[1..]);
    }
  }

  /** `a` occurs somewhere before `b` in `t`. */
  ghost predicate Precedes(t: seq<Event>, a: Event, b: Event) {
    exists i, j :: 0 <= i < j < |t| && t[i] == a && t[j] == b
  }

  /** A filled rectangle: the colour swatch. */
  predicate IsSwatch(e: Event) {
    e.Screen? && e.call.DrawRectangle?
  }

  /** The only swatch of `t` is filled with `color` and is its second-to-last event. */
  predicate SwatchSecondLast(t: seq<Event>, color: Word) {
    && |t| >= 2 && t[|t| - 2] == Screen(DrawRectangle(20, 115, 90, 120, color))
    && forall i :: 0 <= i < |t| && IsSwatch(t[i]) ==> i == |t| - 2
  }

  /** `e` happens in `t` before its last two events. */
  predicate BeforeSwatch(t: seq<Event>, e: Event) {
    |t| >= 2 && e in t[..|t| - 2]
  }

  /** Each channel's text and the approximate colour are drawn before the last two events of `t`. */
  predicate ShownBeforeSwatch(t: seq<Event>, s: Sample, color: Word) {
    && (forall ch :: BeforeSwatch(t, Screen(DrawString(Label(ch), ChannelOf(s, ch), 0x0000))))
    && BeforeSwatch(t, Screen(DrawString(ApproxLabel, color, 0x0000)))
  }

  // ---------------------------------------------------------------- acquisition

  /** The four channels of the sensor, in the order `colorRead` acquires them. */
  datatype Channel = Clear | Red | Green | Blue

  /** Register holding a channel's high byte. */
  function HighReg(ch: Channel): Byte {
    match ch
    case Clear => SensorClearH
    case Red => SensorRedH
    case Green => SensorGreenH
    case Blue => SensorBlueH
  }

  /** Register holding a channel's low byte. */
  function LowReg(ch: Channel): Byte {
    match ch
    case Clear => SensorClearL
    case Red => SensorRedL
    case Green => SensorGreenL
    case Blue => SensorBlueL
  }

  /** The value a sample holds for a channel. */
  function ChannelOf(s: Sample, ch: Channel): Word {
    match ch
    case Clear => s.clear
    case Red => s.red
    case Green => s.green
    case Blue => s.blue
  }

  /**
   * In `(readData(H) << 8) | readData(L)` C leaves open which operand is
   * evaluated first; the compiler's choice, per channel.
   */
  datatype Operand = HighFirst | LowFirst

  /**
   * The bytes the sensor drives during one `colorRead` cycle, by register.
   * Each register is read at most once per cycle, so this covers every
   * behaviour of the sensor, including a sample torn by an update mid-cycle.
   */
  type Sensor = Byte -> Byte

  /**
   * `(hi << 8) | lo` stored into a `uint16_t`: the high byte is the upper
   * half of the word and the low byte the lower half.
   */
  function Compose(hi: Byte, lo: Byte): (w: Word)
    ensures w >> 8 == hi as Word && w & 0xFF == lo as Word
  {
    ((hi as Word) << 8) | (lo as Word)
  }

  /**
   * A channel is its high byte times 256 plus its low byte, without
   * wrap-around: dividing by 256 gives the high byte back and the remainder
   * is the low byte.
   */
  lemma ComposeValue(hi: Byte, lo: Byte)
    ensures Compose(hi, lo) == (hi as Word) * 256 + lo as Word
    ensures Compose(hi, lo) / 256 == hi as Word && Compose(hi, lo) % 256 == lo as Word
  {}

  datatype ChannelRead = ChannelRead(trace: seq<BusEvent>, value: Word)

  /** One channel of `colorRead`: two register reads composed into 16 bits. */
  function ReadChannel(ch: Channel, sensor: Sensor, o: Operand): (r: ChannelRead)
    ensures |r.trace| == 14
    ensures r.value == Compose(sensor(HighReg(ch)), sensor(LowReg(ch)))
    ensures var hi := ReadData(HighReg(ch), sensor(HighReg(ch))).trace;
            var lo := ReadData(LowReg(ch), sensor(LowReg(ch))).trace;
            r.trace == hi + lo || r.trace == lo + hi
  {
    var hi := ReadData(HighReg(ch), sensor(HighReg(ch)));
    var lo := ReadData(LowReg(ch), sensor(LowReg(ch)));
    var w := Compose(hi.value, lo.value);
    ChannelRead(if o == HighFirst then hi.trace + lo.trace else lo.trace + hi.trace,
                w)
  }

  /** What one `colorRead` leaves behind: its trace, the sample and the colour. */
  datatype Cycle = Cycle(trace: seq<Event>, sample: Sample, color: Word)

  /** Text lines `colorRead` draws, one per channel, at x = 20. */
  function Label(ch: Channel): string {
    match ch
    case Clear => "CLEAR: 0x%X"
    case Red => "RED: 0x%X"
    case Green => "GREEN: 0x%X"
    case Blue => "BLUE: 0x%X"
  }

  function Row(ch: Channel): nat {
    match ch
    case Clear => 30
    case Red => 40
    case Green => 50
    case Blue => 60
  }

  const ApproxLabel := "Approx. Color: 0x%X"

  /** The text and swatch drawn for a sample and its colour, in order. */
  function Render(s: Sample, color: Word): (r: seq<DisplayCall>)
  {
    [ SetPosition(20, Row(Clear)), DrawString(Label(Clear), s.clear, 0x0000)
    , SetPosition(20, Row(Red)), DrawString(Label(Red), s.red, 0x0000)
    , SetPosition(20, Row(Green)), DrawString(Label(Green), s.green, 0x0000)
    , SetPosition(20, Row(Blue)), DrawString(Label(Blue), s.blue, 0x0000)
    , SetPosition(20, 80), DrawString(ApproxLabel, color, 0x0000)
    , DrawRectangle(20, 115, 90, 120, color)
    , UpdateScreen ]
  }

  /** Where in the drawing a channel's line starts: the cursor move, then the text. */
  function LineOf(ch: Channel): nat {
    match ch
    case Clear => 0
    case Red => 2
    case Green => 4
    case Blue => 6
  }

  /**
   * Every channel's text, labelled with its name and showing its value, is
   * drawn right after the cursor moves to that channel's row; the
   * approximate colour is drawn below them, at row 80.
   */
  lemma RenderShows(s: Sample, color: Word)
    ensures forall ch :: LineOf(ch) + 1 < |Render(s, color)|
              && Render(s, color)[LineOf(ch)] == SetPosition(20, Row(ch))
              && Render(s, color)[LineOf(ch) + 1] == DrawString(Label(ch), ChannelOf(s, ch), 0x0000)
    ensures Render(s, color)[8] == SetPosition(20, 80)
            && Render(s, color)[9] == DrawString(ApproxLabel, color, 0x0000)
  {}

  /**
   * The bus traffic of the eight register reads of `colorRead`: the
   * channels clear, red, green and blue one after another, each two
   * complete `readData` transfers.
   */
  function Acquisition(sensor: Sensor, order: Channel -> Operand): (t: seq<BusEvent>)
    ensures |t| == 56
    ensures Framed(t) && Count(t, Start) == 16 && Count(t, Stop) == 8
  {
    var cl := ReadChannel(Clear, sensor, order(Clear)).trace;
    var rd := ReadChannel(Red, sensor, order(Red)).trace;
    var gr := ReadChannel(Green, sensor, order(Green)).trace;
    var bl := ReadChannel(Blue, sensor, order(Blue)).trace;
    ChannelTraffic(Clear, sensor, order(Clear));
    ChannelTraffic(Red, sensor, order(Red));
    ChannelTraffic(Green, sensor, order(Green));
    ChannelTraffic(Blue, sensor, order(Blue));
    FramedAppend(cl, rd);
    FramedAppend(cl + rd, gr);
    FramedAppend(cl + rd + gr, bl);
    CountAppend(cl, rd, Start);
    CountAppend(cl + rd, gr, Start);
    CountAppend(cl + rd + gr, bl, Start);
    CountAppend(cl, rd, Stop);
    CountAppend(cl + rd, gr, Stop);
    CountAppend(cl + rd + gr, bl, Stop);
    cl + rd + gr + bl
  }

  /**
   * `colorRead`: the eight register reads, clear, red, green, blue, composed
   * into a sample, and the colour reduced from it.
   */
  function ColorRead(sensor: Sensor, order: Channel -> Operand): (c: Cycle)
    ensures c.sample == Sample(Compose(sensor(SensorClearH), sensor(SensorClearL)),
                               Compose(sensor(SensorRedH), sensor(SensorRedL)),
                               Compose(sensor(SensorGreenH), sensor(SensorGreenL)),
                               Compose(sensor(SensorBlueH), sensor(SensorBlueL)))
    ensures c.color == ReduceSample(c.sample)
  {
    var cl := ReadChannel(Clear, sensor, order(Clear));
    var rd := ReadChannel(Red, sensor, order(Red));
    var gr := ReadChannel(Green, sensor, order(Green));
    var bl := ReadChannel(Blue, sensor, order(Blue));
    var s := Sample(cl.value, rd.value, gr.value, bl.value);
    var color := HexColor(HexColor24(s.red, s.green, s.blue));
    Cycle(Lift(Acquisition(sensor, order)) + Draw(Render(s, color)), s, color)
  }

  /**
   * All eight register reads of `colorRead` complete before its first
   * display call: its 56 bus events come first, and the screen update is
   * its last event.
   */
  lemma ColorReadShape(sensor: Sensor, order: Channel -> Operand)
    ensures var t := ColorRead(sensor, order).trace;
            && |t| == 68 && t[67] == Screen(UpdateScreen)
            && forall i :: 0 <= i < |t| ==> (t[i].Bus? <==> i < 56)
  {
    var c := ColorRead(sensor, order);
    BusThenScreen(Acquisition(sensor, order), Render(c.sample, c.color));
  }

  /** Bus events followed by display calls: the bus events are exactly the first ones. */
  lemma BusThenScreen(bus: seq<BusEvent>, calls: seq<DisplayCall>)
    requires |calls| > 0
    ensures var t := Lift(bus) + Draw(calls);
            && |t| == |bus| + |calls|
            && t[|t| - 1] == Screen(calls[|calls| - 1])
            && forall i :: 0 <= i < |t| ==> (t[i].Bus? <==> i < |bus|)
  {}

  /** The bus traffic of one channel: two complete transfers, four STARTs and two STOPs. */
  lemma ChannelTraffic(ch: Channel, sensor: Sensor, o: Operand)
    ensures var t := ReadChannel(ch, sensor, o).trace;
            Framed(t) && Count(t, Start) == 4 && Count(t, Stop) == 2
  {
    var hi := ReadData(HighReg(ch), sensor(HighReg(ch))).trace;
    var lo := ReadData(LowReg(ch), sensor(LowReg(ch))).trace;
    FramedAppend(hi, lo);
    FramedAppend(lo, hi);
    CountAppend(hi, lo, Start);
    CountAppend(hi, lo, Stop);
    CountAppend(lo, hi, Start);
    CountAppend(lo, hi, Stop);
  }

  /**
   * The bus traffic of `colorRead` is exactly that of its eight register
   * reads: the display calls add none.
   */
  lemma ColorReadTraffic(sensor: Sensor, order: Channel -> Operand)
    ensures var t := BusOf(ColorRead(sensor, order).trace);
            && t == ReadChannel(Clear, sensor, order(Clear)).trace + ReadChannel(Red, sensor, order(Red)).trace
                    + ReadChannel(Green, sensor, order(Green)).trace + ReadChannel(Blue, sensor, order(Blue)).trace
            && Framed(t)
            && Count(t, Start) == 16 && Count(t, Stop) == 8
  {
    var c := ColorRead(sensor, order);
    var bus := Acquisition(sensor, order);
    BusOfAppend(Lift(bus), Draw(Render(c.sample, c.color)));
    BusOfLift(bus);
    BusOfDraw(Render(c.sample, c.color));
  }

  /** Past its 56 bus events, `colorRead` is the rendering of its sample and colour. */
  lemma ColorReadSplit(sensor: Sensor, order: Channel -> Operand)
    ensures var c := ColorRead(sensor, order);
            |c.trace| == 68 && c.trace == c.trace[..56] + Draw(Render(c.sample, c.color))
  {
    var c := ColorRead(sensor, order);
    var bus := Lift(Acquisition(sensor, order));
    assert c.trace[..56] == bus;
  }

  /** The drawing for a sample has one swatch, second to last. */
  lemma RenderSwatchOnce(s: Sample, color: Word)
    ensures |Render(s, color)| == 12
    ensures forall i :: 0 <= i < 12 && Render(s, color)[i].DrawRectangle? ==> i == 10
  {}

  /**
   * Bus events followed by the drawing for a sample: the only swatch is
   * second to last, and every channel's text and the approximate colour
   * come before it.
   */
  lemma DrawingSwatch(bus: seq<BusEvent>, s: Sample, color: Word)
    ensures SwatchSecondLast(Lift(bus) + Draw(Render(s, color)), color)
    ensures ShownBeforeSwatch(Lift(bus) + Draw(Render(s, color)), s, color)
  {
    var r := Render(s, color);
    var t := Lift(bus) + Draw(r);
    var m := |bus|;
    RenderSwatchOnce(s, color);
    RenderShows(s, color);
    assert t[m + 10] == Screen(r[10]);
    forall i | 0 <= i < |t| && IsSwatch(t[i])
      ensures i == |t| - 2
    {
      if i >= m {
        assert t[i] == Screen(r[i - m]);
      }
    }
    forall ch
      ensures BeforeSwatch(t, Screen(DrawString(Label(ch), ChannelOf(s, ch), 0x0000)))
    {
      assert t[..|t| - 2][m + LineOf(ch) + 1] == Screen(r[LineOf(ch) + 1]);
    }
    assert t[..|t| - 2][m + 9] == Screen(r[9]);
  }

  /**
   * `colorRead` draws one swatch, just before the screen update, and every
   * channel's text and the approximate colour come before it.
   */
  lemma ColorReadSwatch(sensor: Sensor, order: Channel -> Operand)
    ensures var c := ColorRead(sensor, order);
            SwatchSecondLast(c.trace, c.color) && ShownBeforeSwatch(c.trace, c.sample, c.color)
  {
    var c := ColorRead(sensor, order);
    DrawingSwatch(Acquisition(sensor, order), c.sample, c.color);
  }

  /** An ordering seen in the tail of a trace holds in the whole trace. */
  lemma PrecedesInTail(a: seq<Event>, b: seq<Event>, x: Event, y: Event)
    requires Precedes(b, x, y)
    ensures Precedes(a + b, x, y)
  {
    var i, j :| 0 <= i < j < |b| && b[i] == x && b[j] == y;
    assert (a + b)[|a| + i] == x && (a + b)[|a| + j] == y;
  }

  /** `colorRead` is not empty and ends with the screen update. */
  lemma ColorReadLast(sensor: Sensor, order: Channel -> Operand)
    ensures var t := ColorRead(sensor, order).trace;
            |t| > 0 && t[|t| - 1] == Screen(UpdateScreen)
  {
    ColorReadShape(sensor, order);
  }

  /**
   * The drawing for a sample: the CLEAR, RED, GREEN and BLUE lines show the
   * channels in that order, the approximate colour follows, then the swatch
   * filled with that colour.
   */
  lemma RenderOrder(s: Sample, color: Word)
    ensures var t := Draw(Render(s, color));
            && Precedes(t, Screen(DrawString(Label(Clear), s.clear, 0x0000)), Screen(DrawString(Label(Red), s.red, 0x0000)))
            && Precedes(t, Screen(DrawString(Label(Red), s.red, 0x0000)), Screen(DrawString(Label(Green), s.green, 0x0000)))
            && Precedes(t, Screen(DrawString(Label(Green), s.green, 0x0000)), Screen(DrawString(Label(Blue), s.blue, 0x0000)))
            && Precedes(t, Screen(DrawString(Label(Blue), s.blue, 0x0000)), Screen(DrawString(ApproxLabel, color, 0x0000)))
            && Precedes(t, Screen(DrawString(ApproxLabel, color, 0x0000)), Screen(DrawRectangle(20, 115, 90, 120, color)))
  {
    var calls := Render(s, color);
    var t := Draw(calls);
    assert calls[1] == DrawString(Label(Clear), s.clear, 0x0000);
    assert calls[3] == DrawString(Label(Red), s.red, 0x0000);
    assert calls[5] == DrawString(Label(Green), s.green, 0x0000);
    assert calls[7] == DrawString(Label(Blue), s.blue, 0x0000);
    assert calls[9] == DrawString(ApproxLabel, color, 0x0000);
    assert calls[10] == DrawRectangle(20, 115, 90, 120, color);
    assert Precedes(t, t[1], t[3]);
    assert Precedes(t, t[3], t[5]);
    assert Precedes(t, t[5], t[7]);
    assert Precedes(t, t[7], t[9]);
    assert Precedes(t, t[9], t[10]);
  }

  /**
   * The drawing for a sample ends with the swatch and then the screen
   * update, which occurs nowhere else.
   */
  lemma RenderEnds(s: Sample, color: Word)
    ensures var t := Draw(Render(s, color));
            && t[|t| - 2] == Screen(DrawRectangle(20, 115, 90, 120, color))
            && t[|t| - 1] == Screen(UpdateScreen)
            && forall i :: 0 <= i < |t| - 1 ==> t[i] != Screen(UpdateScreen)
  {
  }

  /**
   * The drawing of `colorRead`: the CLEAR, RED, GREEN and BLUE lines show
   * the sample's channels in that order, the approximate colour follows,
   * and the swatch filled with that colour comes after all five.
   */
  lemma ColorReadDrawing(sensor: Sensor, order: Channel -> Operand)
    ensures var c := ColorRead(sensor, order);
            && Precedes(c.trace, Screen(DrawString(Label(Clear), c.sample.clear, 0x0000)),
                                 Screen(DrawString(Label(Red), c.sample.red, 0x0000)))
            && Precedes(c.trace, Screen(DrawString(Label(Red), c.sample.red, 0x0000)),
                                 Screen(DrawString(Label(Green), c.sample.green, 0x0000)))
            && Precedes(c.trace, Screen(DrawString(Label(Green), c.sample.green, 0x0000)),
                                 Screen(DrawString(Label(Blue), c.sample.blue, 0x0000)))
            && Precedes(c.trace, Screen(DrawString(Label(Blue), c.sample.blue, 0x0000)),
                                 Screen(DrawString(ApproxLabel, c.color, 0x0000)))
            && Precedes(c.trace, Screen(DrawString(ApproxLabel, c.color, 0x0000)),
                                 Screen(DrawRectangle(20, 115, 90, 120, c.color)))
  {
    var c := ColorRead(sensor, order);
    var s, color := c.sample, c.color;
    var head, tail := c.trace[..56], Draw(Render(s, color));
    ColorReadSplit(sensor, order);
    RenderOrder(s, color);
    PrecedesInTail(head, tail, Screen(DrawString(Label(Clear), s.clear, 0x0000)), Screen(DrawString(Label(Red), s.red, 0x0000)));
    PrecedesInTail(head, tail, Screen(DrawString(Label(Red), s.red, 0x0000)), Screen(DrawString(Label(Green), s.green, 0x0000)));
    PrecedesInTail(head, tail, Screen(DrawString(Label(Green), s.green, 0x0000)), Screen(DrawString(Label(Blue), s.blue, 0x0000)));
    PrecedesInTail(head, tail, Screen(DrawString(Label(Blue), s.blue, 0x0000)), Screen(DrawString(ApproxLabel, color, 0x0000)));
    PrecedesInTail(head, tail, Screen(DrawString(ApproxLabel, color, 0x0000)), Screen(DrawRectangle(20, 115, 90, 120, color)));
  }

  /**
   * `colorRead` ends with the swatch and the screen update, and the screen
   * update occurs nowhere else in the cycle.
   */
  lemma ColorReadEnds(sensor: Sensor, order: Channel -> Operand)
    ensures var c := ColorRead(sensor, order);
            var n := |c.trace|;
            && n >= 2
            && c.trace[n - 2] == Screen(DrawRectangle(20, 115, 90, 120, c.color))
            && c.trace[n - 1] == Screen(UpdateScreen)
            && forall i :: 0 <= i < n - 1 ==> c.trace[i] != Screen(UpdateScreen)
  {
    var c := ColorRead(sensor, order);
    var tail := Draw(Render(c.sample, c.color));
    ColorReadSplit(sensor, order);
    RenderEnds(c.sample, c.color);
    forall i | 0 <= i < |c.trace| - 1
      ensures c.trace[i] != Screen(UpdateScreen)
    {
      if i >= 56 {
        assert c.trace[i] == tail[i - 56];
      }
    }
  }

  // ---------------------------------------------------------------- against a register-file peer

  /**
   * Read against a register-file peer, a channel goes through exactly when
   * the sensor bytes are the peer's register contents, and then its value is
   * the high register times 256 plus the low one — whichever operand the
   * compiler evaluated first.
   */
  lemma ChannelFromPeer(p: Peer.State, ch: Channel, sensor: Sensor, o: Operand)
    ensures Peer.Run(p, ReadChannel(ch, sensor, o).trace).Some?
            <==> sensor(HighReg(ch)) == Peer.Get(p.regs, HighReg(ch)) && sensor(LowReg(ch)) == Peer.Get(p.regs, LowReg(ch))
    ensures Peer.Run(p, ReadChannel(ch, sensor, o).trace).Some? ==>
            ReadChannel(ch, sensor, o).value
            == (Peer.Get(p.regs, HighReg(ch)) as Word) * 256 + Peer.Get(p.regs, LowReg(ch)) as Word
  {
    var h, l := HighReg(ch), LowReg(ch);
    var hi := ReadData(h, sensor(h)).trace;
    var lo := ReadData(l, sensor(l)).trace;
    Peer.RunAppend(p, hi, lo);
    Peer.RunAppend(p, lo, hi);
    Peer.ReadDataLoads(p, h, sensor(h));
    Peer.ReadDataLoads(p, l, sensor(l));
    Peer.ReadDataLoads(Peer.State(p.regs, h, Peer.Released), l, sensor(l));
    Peer.ReadDataLoads(Peer.State(p.regs, l, Peer.Released), h, sensor(h));
  }

  // ---------------------------------------------------------------- main

  /**
   * The sensor set-up of `main`: integration time 0x00, wait time 0xFF,
   * gain 0x00, then power on with RGBC enabled (0x03); four complete write
   * transfers and no read.
   */
  function SensorInit(): (t: seq<BusEvent>)
    ensures t == WriteData(SensorTR, 0x00) + WriteData(SensorWR, 0xFF)
                 + WriteData(SensorCR, 0x00) + WriteData(SensorER, 0x03)
    ensures Framed(t) && Count(t, Start) == 4 && Count(t, Stop) == 4
    ensures forall i :: 0 <= i < |t| ==> !t[i].Read?
  {
    var w1 := WriteData(SensorTR, 0x00);
    var w2 := WriteData(SensorWR, 0xFF);
    var w3 := WriteData(SensorCR, 0x00);
    var w4 := WriteData(SensorER, 0x03);
    FramedAppend(w1, w2);
    FramedAppend(w1 + w2, w3);
    FramedAppend(w1 + w2 + w3, w4);
    CountAppend(w1, w2, Start);
    CountAppend(w1 + w2, w3, Start);
    CountAppend(w1 + w2 + w3, w4, Start);
    CountAppend(w1, w2, Stop);
    CountAppend(w1 + w2, w3, Stop);
    CountAppend(w1 + w2 + w3, w4, Stop);
    w1 + w2 + w3 + w4
  }

  /**
   * Against a register-file peer, the set-up leaves the four configuration
   * registers holding their values and the enable register written last.
   */
  lemma SensorInitConfigures(p: Peer.State)
    ensures Peer.Run(p, SensorInit()).Some?
    ensures var q := Peer.Run(p, SensorInit()).value;
            && Peer.Get(q.regs, SensorTR) == 0x00
            && Peer.Get(q.regs, SensorWR) == 0xFF
            && Peer.Get(q.regs, SensorCR) == 0x00
            && Peer.Get(q.regs, SensorER) == 0x03
            && q.ptr == SensorER
            && q.mode == Peer.Released
  {
    var w1 := WriteData(SensorTR, 0x00);
    var w2 := WriteData(SensorWR, 0xFF);
    var w3 := WriteData(SensorCR, 0x00);
    var w4 := WriteData(SensorER, 0x03);
    var p1 := Peer.State(Peer.Put(p.regs, SensorTR, 0x00), SensorTR, Peer.Released);
    var p2 := Peer.State(Peer.Put(p1.regs, SensorWR, 0xFF), SensorWR, Peer.Released);
    var p3 := Peer.State(Peer.Put(p2.regs, SensorCR, 0x00), SensorCR, Peer.Released);
    var p4 := Peer.State(Peer.Put(p3.regs, SensorER, 0x03), SensorER, Peer.Released);
    Peer.WriteDataStores(p, SensorTR, 0x00);
    Peer.WriteDataStores(p1, SensorWR, 0xFF);
    Peer.WriteDataStores(p2, SensorCR, 0x00);
    Peer.WriteDataStores(p3, SensorER, 0x03);
    Peer.RunAppend(p, w1, w2);
    Peer.RunAppend(p, w1 + w2, w3);
    Peer.RunAppend(p, w1 + w2 + w3, w4);
    assert Peer.Run(p, SensorInit()) == Some(p4);
  }

  /** Two traces one after another open as the first opens and end where the second ends. */
  lemma ConcatEnds(a: seq<Event>, b: seq<Event>)
    requires |a| > 0 && |b| > 0
    ensures (a + b)[0] == a[0] && (a + b)[|a + b| - 1] == b[|b| - 1]
    ensures |a| > 1 ==> (a + b)[1] == a[1]
  {}

  /** The bus events of three traces one after another. */
  lemma BusOf3(a: seq<Event>, b: seq<Event>, c: seq<Event>)
    ensures BusOf(a + b + c) == BusOf(a) + BusOf(b) + BusOf(c)
  {
    BusOfAppend(a + b, c);
    BusOfAppend(a, b);
  }

  /**
   * The bus events of the identity read up to the byte read: START, the
   * address for writing, the identity register, a repeated START and the
   * address for reading.
   */
  const IdentifyOpening := TwiStart() + TwiWrite(SlaveAddr | TwWrite) + TwiWrite(SensorIDR)
                           + TwiStart() + TwiWrite(SlaveAddr | TwRead)

  /** What the identity read draws once the byte is in: the text and a decorative line. */
  function IdentifyText(format: string, id: Byte): seq<DisplayCall> {
    [DrawString(format, id as Word, 0x0000), DrawLine(15, 115, 20, 20, 0x04af)]
  }

  /**
   * The device-identity read written out in `main`: the bus events of
   * `readData(0x92)` with the cursor placed before the byte is read, and
   * the text and decorative line drawn before the STOP. The text shows the
   * byte the read returned, so it is drawn after that read.
   */
  function IdentifyInline(format: string, id: Byte): (t: seq<Event>)
    ensures BusOf(t) == ReadData(SensorIDR, id).trace
    ensures |t| > 0 && t[|t| - 1] == Bus(Stop)
    ensures Screen(DrawString(format, id as Word, 0x0000)) in t
    ensures Screen(DrawLine(15, 115, 20, 20, 0x04af)) in t
    ensures Precedes(t, Bus(Read(id)), Screen(DrawString(format, id as Word, 0x0000)))
  {
    var head := Lift(IdentifyOpening) + Draw([SetPosition(20, 10)]) + Lift(TwiReadAck(id));
    var tail := Draw(IdentifyText(format, id)) + Lift(TwiStop());
    IdentifyInlineBus(format, id);
    assert tail[0] == Screen(IdentifyText(format, id)[0]);
    assert tail[1] == Screen(IdentifyText(format, id)[1]);
    assert (head + tail)[|IdentifyOpening| + 1] == Bus(Read(id));
    assert (head + tail)[|head|] == tail[0];
    head + tail
  }

  lemma IdentifyInlineBus(format: string, id: Byte)
    ensures BusOf(Lift(IdentifyOpening) + Draw([SetPosition(20, 10)]) + Lift(TwiReadAck(id))
                  + (Draw(IdentifyText(format, id)) + Lift(TwiStop())))
            == ReadData(SensorIDR, id).trace
  {
    var opening := IdentifyOpening;
    var text := IdentifyText(format, id);
    assert opening == [Start, Write(0x52), Write(SensorIDR), Start, Write(0x53)];
    var head := Lift(opening) + Draw([SetPosition(20, 10)]) + Lift(TwiReadAck(id));
    BusOf3(Lift(opening), Draw([SetPosition(20, 10)]), Lift(TwiReadAck(id)));
    BusOfAppend(Draw(text), Lift(TwiStop()));
    BusOfAppend(head, Draw(text) + Lift(TwiStop()));
    BusOfLift(opening);
    BusOfLift(TwiReadAck(id));
    BusOfLift(TwiStop());
    BusOfDraw([SetPosition(20, 10)]);
    BusOfDraw(text);
    assert BusOf(head) == opening + [Read(id)];
    assert opening + [Read(id)] + [Stop] == ReadData(SensorIDR, id).trace;
  }

  /** The display set-up that opens `main`. */
  const DisplaySetup := [St7735Init, ClearScreen(0xffff)]

  /** The identity read draws no swatch. */
  lemma IdentifyInlineNoSwatch(format: string, id: Byte)
    ensures var t := IdentifyInline(format, id);
            forall i :: 0 <= i < |t| ==> !IsSwatch(t[i])
  {
    var t := IdentifyInline(format, id);
    var opening := IdentifyOpening;
    var text := IdentifyText(format, id);
    var head := Lift(opening) + Draw([SetPosition(20, 10)]) + Lift(TwiReadAck(id));
    var tail := Draw(text) + Lift(TwiStop());
    assert t == head + tail;
    forall i | 0 <= i < |t|
      ensures !IsSwatch(t[i])
    {
      if i < |head| {
        if i < |opening| + 1 {
          assert t[i] == (Lift(opening) + Draw([SetPosition(20, 10)]))[i];
        } else {
          assert t[i] == Lift(TwiReadAck(id))[i - |opening| - 1];
        }
      } else {
        assert t[i] == tail[i - |head|];
      }
    }
  }

  /**
   * Start-up of `main` up to its first `colorRead`: display set-up, the four
   * sensor writes and the identity read.
   */
  function StartupHead(id: Byte): (t: seq<Event>)
    ensures |t| >= 2 && t[0] == Screen(St7735Init) && t[1] == Screen(ClearScreen(0xffff))
  {
    var rest := Lift(SensorInit()) + IdentifyInline("Device ID: 0x%X", id);
    SetupOpens(rest);
    Draw(DisplaySetup) + rest
  }

  /** Whatever follows the display set-up, the trace opens with it. */
  lemma SetupOpens(rest: seq<Event>)
    ensures var t := Draw(DisplaySetup) + rest;
            |t| >= 2 && t[0] == Screen(St7735Init) && t[1] == Screen(ClearScreen(0xffff))
  {
    assert (Draw(DisplaySetup) + rest)[1] == Draw(DisplaySetup)[1];
  }

  /**
   * The bus traffic of start-up before its `colorRead`: the four
   * configuration writes, then the identity read, framed.
   */
  lemma StartupHeadBus(id: Byte)
    ensures BusOf(StartupHead(id)) == SensorInit() + ReadData(SensorIDR, id).trace
    ensures Framed(BusOf(StartupHead(id)))
  {
    var idr := IdentifyInline("Device ID: 0x%X", id);
    var rest := Lift(SensorInit()) + idr;
    BusOfAppend(Lift(SensorInit()), idr);
    BusOfLift(SensorInit());
    BusOfAppend(Draw(DisplaySetup), rest);
    BusOfDraw(DisplaySetup);
    assert [] + BusOf(rest) == BusOf(rest);
    FramedAppend(SensorInit(), ReadData(SensorIDR, id).trace);
  }

  /**
   * Start-up before its `colorRead` draws the identity text and draws no
   * swatch.
   */
  lemma StartupHeadDraws(id: Byte)
    ensures var t := StartupHead(id);
            && Screen(DrawString("Device ID: 0x%X", id as Word, 0x0000)) in t
            && forall i :: 0 <= i < |t| ==> !IsSwatch(t[i])
  {
    var text := Screen(DrawString("Device ID: 0x%X", id as Word, 0x0000));
    var idr := IdentifyInline("Device ID: 0x%X", id);
    IdentifyInlineNoSwatch("Device ID: 0x%X", id);
    NoSwatchBefore(Lift(SensorInit()), idr, text);
    NoSwatchBefore(Draw(DisplaySetup), Lift(SensorInit()) + idr, text);
  }

  /** Prefixing a trace without swatches keeps what it draws and adds no swatch. */
  lemma NoSwatchBefore(a: seq<Event>, b: seq<Event>, x: Event)
    requires forall i :: 0 <= i < |a| ==> a[i].Bus? || a[i].call.St7735Init? || a[i].call.ClearScreen?
    requires forall i :: 0 <= i < |b| ==> !IsSwatch(b[i])
    requires x in b
    ensures x in a + b
    ensures forall i :: 0 <= i < |a + b| ==> !IsSwatch((a + b)[i])
  {
    var k :| 0 <= k < |b| && b[k] == x;
    assert (a + b)[|a| + k] == x;
    forall i | 0 <= i < |a + b|
      ensures !IsSwatch((a + b)[i])
    {
      if i >= |a| {
        assert (a + b)[i] == b[i - |a|];
      }
    }
  }

  /**
   * Start-up of `main`: display set-up, the four sensor writes, the identity
   * read and the first `colorRead`. On the bus, the four writes come first,
   * in order, and precede every `readData`.
   */
  function Startup(sensor: Sensor, order: Channel -> Operand): (t: seq<Event>)
    ensures BusOf(t) == SensorInit() + ReadData(SensorIDR, sensor(SensorIDR)).trace
                        + BusOf(ColorRead(sensor, order).trace)
    ensures Framed(BusOf(t))
    ensures |t| >= 2 && t[0] == Screen(St7735Init) && t[1] == Screen(ClearScreen(0xffff))
  {
    var head := StartupHead(sensor(SensorIDR));
    var c := ColorRead(sensor, order);
    StartupHeadBus(sensor(SensorIDR));
    BusOfAppend(head, c.trace);
    ColorReadTraffic(sensor, order);
    FramedAppend(BusOf(head), BusOf(c.trace));
    ColorReadLast(sensor, order);
    ConcatEnds(head, c.trace);
    head + c.trace
  }

  /**
   * One pass of the polling loop up to its `colorRead`: clear the screen and
   * read and show the identity.
   */
  function PollHead(id: Byte): (t: seq<Event>)
    ensures |t| > 0 && t[0] == Screen(ClearScreen(0xffff))
  {
    Draw([ClearScreen(0xffff)]) + IdentifyInline("Device ID:0x%X", id)
  }

  /** The bus traffic of a pass before its `colorRead` is the identity read. */
  lemma PollHeadBus(id: Byte)
    ensures BusOf(PollHead(id)) == ReadData(SensorIDR, id).trace
  {
    var idr := IdentifyInline("Device ID:0x%X", id);
    BusOfAppend(Draw([ClearScreen(0xffff)]), idr);
    BusOfDraw([ClearScreen(0xffff)]);
    assert [] + BusOf(idr) == BusOf(idr);
  }

  /**
   * A pass before its `colorRead` draws the identity text and draws no
   * swatch.
   */
  lemma PollHeadDraws(id: Byte)
    ensures var t := PollHead(id);
            && Screen(DrawString("Device ID:0x%X", id as Word, 0x0000)) in t
            && forall i :: 0 <= i < |t| ==> !IsSwatch(t[i])
  {
    var clear := Draw([ClearScreen(0xffff)]);
    var idr := IdentifyInline("Device ID:0x%X", id);
    IdentifyInlineNoSwatch("Device ID:0x%X", id);
    NoSwatchBefore(clear, idr, Screen(DrawString("Device ID:0x%X", id as Word, 0x0000)));
  }

  /**
   * One pass of the polling loop (after its one-second wait): clear the
   * screen, read and show the identity, then `colorRead`. It starts with the
   * clear and ends with the screen update.
   */
  function PollIteration(sensor: Sensor, order: Channel -> Operand): (t: seq<Event>)
    ensures |t| > 0 && t[0] == Screen(ClearScreen(0xffff)) && t[|t| - 1] == Screen(UpdateScreen)
  {
    var head := PollHead(sensor(SensorIDR));
    var c := ColorRead(sensor, order);
    ColorReadLast(sensor, order);
    ConcatEnds(head, c.trace);
    head + c.trace
  }

  /**
   * The bus traffic of one pass of the polling loop is the identity read
   * followed by the traffic of `colorRead`: nine complete `readData`
   * transfers.
   */
  lemma PollIterationTraffic(sensor: Sensor, order: Channel -> Operand)
    ensures var t := PollIteration(sensor, order);
            && BusOf(t) == ReadData(SensorIDR, sensor(SensorIDR)).trace + BusOf(ColorRead(sensor, order).trace)
            && Framed(BusOf(t))
  {
    var c := ColorRead(sensor, order);
    var head := PollHead(sensor(SensorIDR));
    PollHeadBus(sensor(SensorIDR));
    BusOfAppend(head, c.trace);
    ColorReadTraffic(sensor, order);
    FramedAppend(ReadData(SensorIDR, sensor(SensorIDR)).trace, BusOf(c.trace));
  }

  /**
   * A trace that draws `x` and no swatch, followed by one whose only swatch
   * is second to last with the sample's texts before it: the whole has its
   * only swatch second to last, with `x` and the texts before it.
   */
  lemma SwatchAfterHead(head: seq<Event>, tail: seq<Event>, x: Event, s: Sample, color: Word)
    requires forall i :: 0 <= i < |head| ==> !IsSwatch(head[i])
    requires x in head
    requires SwatchSecondLast(tail, color) && ShownBeforeSwatch(tail, s, color)
    ensures (head + tail)[|head|..] == tail
    ensures SwatchSecondLast(head + tail, color)
    ensures BeforeSwatch(head + tail, x)
    ensures ShownBeforeSwatch(head + tail, s, color)
  {
    var t := head + tail;
    assert t[|head|..] == tail;
    forall i | 0 <= i < |t| && IsSwatch(t[i])
      ensures i == |t| - 2
    {
      if i >= |head| {
        assert t[i] == tail[i - |head|];
      }
    }
    assert t[..|t| - 2] == head + tail[..|tail| - 2];
    var k :| 0 <= k < |head| && head[k] == x;
    assert t[..|t| - 2][k] == x;
    DrawnBefore(head, tail[..|tail| - 2], s, color);
  }

  /**
   * One pass of the polling loop ends with the whole of `colorRead`. Its only
   * swatch is the one `colorRead` draws, second to last, and the identity
   * text, the four channel texts and the approximate colour all come before
   * it.
   */
  lemma PollIterationDrawing(sensor: Sensor, order: Channel -> Operand)
    ensures var t := PollIteration(sensor, order);
            var c := ColorRead(sensor, order);
            && |c.trace| == 68 && 68 <= |t| && t[|t| - 68..] == c.trace
            && SwatchSecondLast(t, c.color)
            && BeforeSwatch(t, Screen(DrawString("Device ID:0x%X", sensor(SensorIDR) as Word, 0x0000)))
            && ShownBeforeSwatch(t, c.sample, c.color)
  {
    var c := ColorRead(sensor, order);
    ColorReadSplit(sensor, order);
    ColorReadSwatch(sensor, order);
    PollHeadDraws(sensor(SensorIDR));
    SwatchAfterHead(PollHead(sensor(SensorIDR)), c.trace,
                    Screen(DrawString("Device ID:0x%X", sensor(SensorIDR) as Word, 0x0000)), c.sample, c.color);
  }

  /**
   * Start-up ends with the whole of the first `colorRead`. Its only swatch
   * is the one `colorRead` draws, second to last, and the identity text, the
   * four channel texts and the approximate colour all come before it.
   */
  lemma StartupDrawing(sensor: Sensor, order: Channel -> Operand)
    ensures var t := Startup(sensor, order);
            var c := ColorRead(sensor, order);
            && |c.trace| == 68 && 68 <= |t| && t[|t| - 68..] == c.trace
            && SwatchSecondLast(t, c.color)
            && BeforeSwatch(t, Screen(DrawString("Device ID: 0x%X", sensor(SensorIDR) as Word, 0x0000)))
            && ShownBeforeSwatch(t, c.sample, c.color)
  {
    var c := ColorRead(sensor, order);
    ColorReadSplit(sensor, order);
    ColorReadSwatch(sensor, order);
    StartupHeadDraws(sensor(SensorIDR));
    SwatchAfterHead(StartupHead(sensor(SensorIDR)), c.trace,
                    Screen(DrawString("Device ID: 0x%X", sensor(SensorIDR) as Word, 0x0000)), c.sample, c.color);
  }

  /** Texts drawn in the second part of a trace are drawn in the whole. */
  lemma DrawnBefore(head: seq<Event>, body: seq<Event>, s: Sample, color: Word)
    requires forall ch :: Screen(DrawString(Label(ch), ChannelOf(s, ch), 0x0000)) in body
    requires Screen(DrawString(ApproxLabel, color, 0x0000)) in body
    ensures forall ch :: Screen(DrawString(Label(ch), ChannelOf(s, ch), 0x0000)) in head + body
    ensures Screen(DrawString(ApproxLabel, color, 0x0000)) in head + body
  {
    forall ch
      ensures Screen(DrawString(Label(ch), ChannelOf(s, ch), 0x0000)) in head + body
    {
      var k :| 0 <= k < |body| && body[k] == Screen(DrawString(Label(ch), ChannelOf(s, ch), 0x0000));
      assert (head + body)[|head| + k] == body[k];
    }
    var k :| 0 <= k < |body| && body[k] == Screen(DrawString(ApproxLabel, color, 0x0000));
    assert (head + body)[|head| + k] == body[k];
  }
}
