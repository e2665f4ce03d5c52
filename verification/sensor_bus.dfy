/**
 * The register protocol of the colour sensor, built on the bus master:
 * `writeData` and `readData` of main.c as producers of bus-event traces,
 * and the sensor's fixed address and register map.
 */
module SensorBus {
  import opened Types
  import opened Twi

  /** The sensor's 7-bit address 0x29, shifted into an address byte (`SLAVE_ADDR`). */
  const SlaveAddr: Byte := 0x29 << 1

  /** `TW_WRITE` and `TW_READ`: the R/W bit added to `SlaveAddr`. */
  const TwWrite: Byte := 0
  const TwRead: Byte := 1

  /** Command bytes of the register map (each already carries the command bit 0x80). */
  const SensorER: Byte := 0x80      // enable
  const SensorTR: Byte := 0x81      // integration time
  const SensorWR: Byte := 0x83      // wait time
  const SensorCR: Byte := 0x8F      // control (gain)
  const SensorIDR: Byte := 0x92     // device identity
  const SensorSR: Byte := 0x93      // status
  const SensorClearL: Byte := 0x94
  const SensorClearH: Byte := 0x95
  const SensorRedL: Byte := 0x96
  const SensorRedH: Byte := 0x97
  const SensorGreenL: Byte := 0x98
  const SensorGreenH: Byte := 0x99
  const SensorBlueL: Byte := 0x9A
  const SensorBlueH: Byte := 0x9B

  /** The outcome of `readData`: what it put on the bus and the byte it returns. */
  datatype Transfer = Transfer(trace: seq<BusEvent>, value: Byte)

  /**
   * `writeData(reg, data)`: one transfer that addresses the sensor for
   * writing and sends the register byte and then the data byte.
   */
  function WriteData(reg: Byte, data: Byte): (t: seq<BusEvent>)
    ensures t == [Start, Write(0x52), Write(reg), Write(data), Stop]
    ensures Framed(t)
    ensures Count(t, Start) == 1 && Count(t, Stop) == 1
  {
    var t := TwiStart() + TwiWrite(SlaveAddr | TwWrite) + TwiWrite(reg) + TwiWrite(data) + TwiStop();
    assert t == [Start, Write(0x52), Write(reg), Write(data), Stop];
    FramedWrite(reg, data);
    CountWrite(reg, data);
    t
  }

  /**
   * `readData(reg)`: the combined format of I2C — a write of the register
   * byte, then a repeated START that readdresses the sensor for reading,
   * one byte read, and STOP. `driven` is the byte the sensor puts on the bus;
   * it is the value `readData` returns.
   */
  function ReadData(reg: Byte, driven: Byte): (r: Transfer)
    ensures r.trace == [Start, Write(0x52), Write(reg), Start, Write(0x53), Read(driven), Stop]
    ensures r.value == driven && r.trace[5] == Read(r.value)
    ensures Framed(r.trace)
    ensures Count(r.trace, Start) == 2 && Count(r.trace, Stop) == 1
    ensures Stop !in r.trace[..|r.trace| - 1]
  {
    var t := TwiStart() + TwiWrite(SlaveAddr | TwWrite) + TwiWrite(reg)
      + TwiStart() + TwiWrite(SlaveAddr | TwRead) + TwiReadAck(driven) + TwiStop();
    assert t == [Start, Write(0x52), Write(reg), Start, Write(0x53), Read(driven), Stop];
    assert t[5] == Read(driven);
    FramedRead(reg, driven);
    CountRead(reg, driven);
    Transfer(t, driven)
  }

  /** Occurrences of `e` in five concatenated pieces. */
  lemma Count5(a: seq<BusEvent>, b: seq<BusEvent>, c: seq<BusEvent>, d: seq<BusEvent>, f: seq<BusEvent>, e: BusEvent)
    ensures Count(a + b + c + d + f, e) == Count(a, e) + Count(b, e) + Count(c, e) + Count(d, e) + Count(f, e)
  {
    CountAppend(a + b + c + d, f, e);
    CountAppend(a + b + c, d, e);
    CountAppend(a + b, c, e);
    CountAppend(a, b, e);
  }

  /** The write transfer holds one START and one STOP. */
  lemma CountWrite(reg: Byte, data: Byte)
    ensures var t := [Start, Write(0x52), Write(reg), Write(data), Stop];
      Count(t, Start) == 1 && Count(t, Stop) == 1
  {
    var t := [Start, Write(0x52), Write(reg), Write(data), Stop];
    assert t == [Start] + [Write(0x52)] + [Write(reg)] + [Write(data)] + [Stop];
    forall e | e == Start || e == Stop
      ensures Count(t, e) == 1
    {
      Count5([Start], [Write(0x52)], [Write(reg)], [Write(data)], [Stop], e);
      CountOne(Start, e);
      CountOne(Write(0x52), e);
      CountOne(Write(reg), e);
      CountOne(Write(data), e);
      CountOne(Stop, e);
    }
  }

  /** The read transfer holds two STARTs, one STOP, and no STOP before its end. */
  lemma CountRead(reg: Byte, driven: Byte)
    ensures var t := [Start, Write(0x52), Write(reg), Start, Write(0x53), Read(driven), Stop];
      Count(t, Start) == 2 && Count(t, Stop) == 1 && Stop !in t[..6]
  {
    var t := [Start, Write(0x52), Write(reg), Start, Write(0x53), Read(driven), Stop];
    assert t == ([Start] + [Write(0x52)] + [Write(reg)]) + ([Start] + [Write(0x53)] + [Read(driven)] + [Stop]);
    forall e | e == Start || e == Stop
      ensures Count(t, e) == if e == Start then 2 else 1
    {
      CountAppend([Start] + [Write(0x52)] + [Write(reg)], [Start] + [Write(0x53)] + [Read(driven)] + [Stop], e);
      CountAppend([Start] + [Write(0x52)], [Write(reg)], e);
      CountAppend([Start], [Write(0x52)], e);
      CountAppend([Start] + [Write(0x53)] + [Read(driven)], [Stop], e);
      CountAppend([Start] + [Write(0x53)], [Read(driven)], e);
      CountAppend([Start], [Write(0x53)], e);
      CountOne(Start, e);
      CountOne(Write(0x52), e);
      CountOne(Write(reg), e);
      CountOne(Write(0x53), e);
      CountOne(Read(driven), e);
      CountOne(Stop, e);
    }
  }

  /** The write transfer follows the frame format. */
  lemma FramedWrite(reg: Byte, data: Byte)
    ensures Framed([Start, Write(0x52), Write(reg), Write(data), Stop])
  {
    var t := [Start, Write(0x52), Write(reg), Write(data), Stop];
    assert t[1..][1..] == t[2..];
    assert t[2..][1..] == t[3..];
    assert t[3..][1..] == t[4..];
    assert t[4..][1..] == [];
    assert Walk(Transmitting, t[4..]) == Idle;
    assert Walk(Transmitting, t[3..]) == Idle;
    assert Walk(Addressing, t[1..]) == Walk(Transmitting, t[2..]) == Idle;
  }

  /** The combined read transfer follows the frame format. */
  lemma FramedRead(reg: Byte, driven: Byte)
    ensures Framed([Start, Write(0x52), Write(reg), Start, Write(0x53), Read(driven), Stop])
  {
    var t := [Start, Write(0x52), Write(reg), Start, Write(0x53), Read(driven), Stop];
    assert t[1..][1..] == t[2..];
    assert t[2..][1..] == t[3..];
    assert t[3..][1..] == t[4..];
    assert t[4..][1..] == t[5..];
    assert t[5..][1..] == t[6..];
    assert t[6..][1..] == [];
    assert Walk(Receiving, t[6..]) == Idle;
    assert Walk(Receiving, t[5..]) == Idle;
    assert Walk(Addressing, t[4..]) == Idle;
    assert Walk(Transmitting, t[2..]) == Walk(Transmitting, t[3..]) == Idle;
    assert Walk(Addressing, t[1..]) == Idle;
  }
}
