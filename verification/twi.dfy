/**
 * The two-wire (TWI / I2C) bus master: the four blocking primitives
 * `TWIstart`, `TWIwrite`, `TWIread_ack` and `TWIstop`, abstracted to the
 * bus condition or byte each one puts on the wire, and the frame format of
 * the I2C-bus specification (UM10204, section 3.1.10) against which a
 * sequence of such events is judged.
 */
module Twi {
  import opened Types

  /** What one call of a bus-master primitive puts on the bus. */
  datatype BusEvent =
    | Start           // START, or repeated START when a transfer is open
    | Write(b: Byte)  // the master transmits one byte
    | Read(b: Byte)   // the master clocks in one byte driven by the addressed peer
    | Stop            // STOP

  /**
   * `TWIstart`: issue a START and wait for TWINT. One event, which opens a
   * transfer on an idle bus and is a repeated START inside one.
   */
  function TwiStart(): (t: seq<BusEvent>)
    ensures |t| == 1
    ensures Next(Idle, t[0]) == Addressing
    ensures Next(Transmitting, t[0]) == Addressing && Next(Receiving, t[0]) == Addressing
  {
    [Start]
  }

  /**
   * `TWIwrite(data)`: load TWDR and wait for TWINT. One event carrying
   * `data`, which addresses a peer after a START and is a data byte while
   * transmitting.
   */
  function TwiWrite(data: Byte): (t: seq<BusEvent>)
    ensures |t| == 1 && t[0].Write? && t[0].b == data
    ensures Next(Addressing, t[0]) == if IsReadAddress(data) then Receiving else Transmitting
    ensures Next(Transmitting, t[0]) == Transmitting
  {
    [Write(data)]
  }

  /**
   * `TWIread_ack()`: clock in one byte and return TWDR; `driven` is the byte
   * the peer put on SDA, which is therefore what the call returns. It is
   * allowed only while receiving.
   */
  function TwiReadAck(driven: Byte): (t: seq<BusEvent>)
    ensures |t| == 1 && t[0].Read? && t[0].b == driven
    ensures Next(Receiving, t[0]) == Receiving && Next(Transmitting, t[0]) == Violation
  {
    [Read(driven)]
  }

  /**
   * `TWIstop`: issue a STOP and wait for TWSTO to clear. One event, which
   * ends an open transfer and frees the bus.
   */
  function TwiStop(): (t: seq<BusEvent>)
    ensures |t| == 1
    ensures Next(Transmitting, t[0]) == Idle && Next(Receiving, t[0]) == Idle
    ensures Next(Idle, t[0]) == Violation
  {
    [Stop]
  }

  /** How many times `e` occurs in `t`. */
  function Count(t: seq<BusEvent>, e: BusEvent): nat
    decreases |t|
  {
    if |t| == 0 then 0 else (if t[0] == e then 1 else 0) + Count(t[1..], e)
  }

  /** Occurrences in a concatenation add up. */
  lemma {:induction false} CountAppend(a: seq<BusEvent>, b: seq<BusEvent>, e: BusEvent)
    ensures Count(a + b, e) == Count(a, e) + Count(b, e)
    decreases |a|
  {
    if |a| == 0 {
      assert a + b == b;
    } else {
      assert (a + b)[0] == a[0];
      assert (a + b)[1..] == a[1..] + b;
      CountAppend(a[1..], b, e);
    }
  }

  /** A single event occurs once in its own one-event trace and nowhere else. */
  lemma CountOne(x: BusEvent, e: BusEvent)
    ensures Count([x], e) == if x == e then 1 else 0
  {
    assert [x][1..] == [];
  }

  /** The R/W bit of an address byte: bit 0, set for a read. */
  predicate IsReadAddress(b: Byte) { b & 1 == 1 }

  /** Where the master stands in the I2C frame format. */
  datatype Phase =
    | Idle          // bus free: no START outstanding
    | Addressing    // after START or repeated START: the address byte is due
    | Transmitting  // addressed with R/W = 0: the master sends data bytes
    | Receiving     // addressed with R/W = 1: the master reads data bytes
    | Violation     // the events so far do not follow the frame format

  /**
   * One event of the frame format. A START while a transfer is open is a
   * repeated START; a START directly followed by a STOP (a void message)
   * and a START directly followed by a START are not allowed.
   */
  function Next(p: Phase, e: BusEvent): Phase {
    match e
    case Start =>
      if p == Idle || p == Transmitting || p == Receiving then Addressing else Violation
    case Write(b) =>
      if p == Addressing then (if IsReadAddress(b) then Receiving else Transmitting)
      else if p == Transmitting then Transmitting
      else Violation
    case Read(_) =>
      if p == Receiving then Receiving else Violation
    case Stop =>
      if p == Transmitting || p == Receiving then Idle else Violation
  }

  /** The phase reached from `p` after all of `t`. */
  function Walk(p: Phase, t: seq<BusEvent>): Phase
    decreases |t|
  {
    if |t| == 0 then p else Walk(Next(p, t[0]), t[1..])
  }

  /** `t` is a succession of complete transfers, each opened by START and closed by STOP. */
  predicate Framed(t: seq<BusEvent>) {
    Walk(Idle, t) == Idle
  }

  /** Walking a concatenation is walking its parts one after the other. */
  lemma {:induction false} WalkAppend(p: Phase, a: seq<BusEvent>, b: seq<BusEvent>)
    ensures Walk(p, a + b) == Walk(Walk(p, a), b)
    decreases |a|
  {
    if |a| == 0 {
      assert a + b == b;
    } else {
      assert (a + b)[0] == a[0];
      assert (a + b)[1..] == a[1..] + b;
      WalkAppend(Next(p, a[0]), a[1..], b);
    }
  }

  /** Complete transfers issued one after another form a framed trace. */
  lemma FramedAppend(a: seq<BusEvent>, b: seq<BusEvent>)
    requires Framed(a) && Framed(b)
    ensures Framed(a + b)
  {
    WalkAppend(Idle, a, b);
  }
}
