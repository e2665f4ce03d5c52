/**
 * A register-file peer on the two-wire bus: a stand-in for the colour sensor
 * that answers to address 0x29, takes the first byte of a write message as
 * its register pointer and any further bytes as data for that register, and
 * drives the pointed-to register's contents on every read. It gives the
 * register protocol a meaning against which `writeData` and `readData` can
 * be checked as inverses.
 */
module Peer {
  import opened Types
  import opened Twi
  import opened SensorBus

  /** The peer's 7-bit bus address. */
  const PeerAddress: Byte := 0x29

  datatype Mode =
    | Released                 // no transfer open
    | Addressed                // START seen: the address byte is due
    | Listening(ptrSet: bool)  // selected for writing; `ptrSet` once the register byte arrived
    | Talking                  // selected for reading
    | Deselected               // the address byte named another device

  /** The peer's registers, keyed by register number, with its pointer and transfer mode. */
  datatype State = State(regs: map<int, Byte>, ptr: Byte, mode: Mode)

  /** Contents of register `r`; a register never written reads as zero. */
  function Get(regs: map<int, Byte>, r: Byte): Byte {
    if r as int in regs then regs[r as int] else 0
  }

  /** The registers with `r` now holding `b`. */
  function Put(regs: map<int, Byte>, r: Byte, b: Byte): (regs': map<int, Byte>)
    ensures Get(regs', r) == b
    ensures forall q: Byte :: q != r ==> Get(regs', q) == Get(regs, q)
  {
    regs[r as int := b]
  }

  /**
   * The peer's reaction to one bus event, or `None` when the event cannot
   * happen with this peer on the bus: a read whose byte is not the byte the
   * peer drives, a master write while the peer is transmitting, or a byte
   * outside a transfer.
   */
  function Step(s: State, e: BusEvent): Option<State> {
    match e
    case Start => Some(s.(mode := Addressed))
    case Stop =>
      if s.mode == Released || s.mode == Addressed then None else Some(s.(mode := Released))
    case Write(b) =>
      (match s.mode
       case Addressed =>
         if b >> 1 != PeerAddress then Some(s.(mode := Deselected))
         else if b & 1 == 0 then Some(s.(mode := Listening(false)))
         else Some(s.(mode := Talking))
       case Listening(ptrSet) =>
         if ptrSet then Some(s.(regs := Put(s.regs, s.ptr, b)))
         else Some(s.(ptr := b, mode := Listening(true)))
       case Deselected => Some(s)
       case Talking => None
       case Released => None)
    case Read(b) =>
      (match s.mode
       case Talking => if b == Get(s.regs, s.ptr) then Some(s) else None
       case Deselected => Some(s)
       case _ => None)
  }

  /** The peer's state after all of `t`, or `None` if some event is impossible. */
  function Run(s: State, t: seq<BusEvent>): Option<State>
    decreases |t|
  {
    if |t| == 0 then Some(s)
    else match Step(s, t[0])
      case None => None
      case Some(s') => Run(s', t[1..])
  }

  /** Running a concatenation is running its parts one after the other. */
  lemma {:induction false} RunAppend(s: State, a: seq<BusEvent>, b: seq<BusEvent>)
    ensures Run(s, a + b) == (match Run(s, a) case None => None case Some(s') => Run(s', b))
    decreases |a|
  {
    if |a| == 0 {
      assert a + b == b;
    } else {
      assert (a + b)[0] == a[0];
      assert (a + b)[1..] == a[1..] + b;
      match Step(s, a[0])
      case None =>
      case Some(s') => RunAppend(s', a[1..], b);
    }
  }

  /** One event of a run: the rest of the run starts from the state that event leads to. */
  lemma RunStep(s: State, t: seq<BusEvent>, s': State)
    requires |t| > 0 && Step(s, t[0]) == Some(s')
    ensures Run(s, t) == Run(s', t[1..])
  {}

  /**
   * `writeData(reg, data)` stores `data` in register `reg`, leaves the
   * pointer at `reg` and every other register as it was, and releases the bus.
   */
  lemma WriteDataStores(s: State, reg: Byte, data: Byte)
    ensures Run(s, WriteData(reg, data)) == Some(State(Put(s.regs, reg, data), reg, Released))
  {
    var t := WriteData(reg, data);
    var s1 := s.(mode := Addressed);
    var s2 := s.(mode := Listening(false));
    var s3 := State(s.regs, reg, Listening(true));
    var s4 := State(Put(s.regs, reg, data), reg, Listening(true));
    RunStep(s, t, s1);
    RunStep(s1, t[1..], s2);
    assert t[1..][1..] == t[2..];
    RunStep(s2, t[2..], s3);
    assert t[2..][1..] == t[3..];
    RunStep(s3, t[3..], s4);
    assert t[3..][1..] == t[4..];
    RunStep(s4, t[4..], s4.(mode := Released));
    assert t[4..][1..] == [];
  }

  /**
   * `readData(reg)` goes through exactly when the byte read is the contents
   * of register `reg`; it leaves the registers unchanged and the pointer at `reg`.
   */
  lemma ReadDataLoads(s: State, reg: Byte, driven: Byte)
    ensures Run(s, ReadData(reg, driven).trace)
      == if driven == Get(s.regs, reg) then Some(State(s.regs, reg, Released)) else None
  {
    var t := ReadData(reg, driven).trace;
    var s1 := s.(mode := Addressed);
    var s2 := s.(mode := Listening(false));
    var s3 := State(s.regs, reg, Listening(true));
    var s4 := State(s.regs, reg, Addressed);
    var s5 := State(s.regs, reg, Talking);
    RunStep(s, t, s1);
    RunStep(s1, t[1..], s2);
    assert t[1..][1..] == t[2..];
    RunStep(s2, t[2..], s3);
    assert t[2..][1..] == t[3..];
    RunStep(s3, t[3..], s4);
    assert t[3..][1..] == t[4..];
    RunStep(s4, t[4..], s5);
    assert t[4..][1..] == t[5..];
    if driven == Get(s.regs, reg) {
      RunStep(s5, t[5..], s5);
      assert t[5..][1..] == t[6..];
      RunStep(s5, t[6..], s5.(mode := Released));
      assert t[6..][1..] == [];
    } else {
      assert Step(s5, t[5..][0]) == None;
    }
  }

  /**
   * Round trip of the register protocol: a `writeData(reg, v)` followed by
   * `readData(reg)` reads back exactly `v`, whatever the peer held before.
   */
  lemma WriteThenRead(s: State, reg: Byte, v: Byte, driven: Byte)
    ensures Run(s, WriteData(reg, v) + ReadData(reg, driven).trace).Some? <==> driven == v
  {
    var s' := State(Put(s.regs, reg, v), reg, Released);
    RunAppend(s, WriteData(reg, v), ReadData(reg, driven).trace);
    WriteDataStores(s, reg, v);
    assert Run(s, WriteData(reg, v) + ReadData(reg, driven).trace) == Run(s', ReadData(reg, driven).trace);
    ReadDataLoads(s', reg, driven);
  }
}
