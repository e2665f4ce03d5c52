# Colour sensor over I2C, shown on an ST7735 display — a Dafny model

`main.c` runs on an AVR microcontroller. It drives a TCS34725-style RGBC colour
sensor over the two-wire interface (TWI, Atmel's name for I2C) and shows the
readings on an ST7735 TFT panel. At start-up it does four things:

- configures the sensor with four register writes;
- reads the device-identity register;
- runs `colorRead` once;
- then polls once a second.

Each poll clears the screen, reads the identity again and runs `colorRead`.
`colorRead` does the following:

- reads the 16-bit clear, red, green and blue channels as eight one-byte
  register reads;
- prints the four values;
- reduces red, green and blue to a 16-bit 5-6-5 display colour;
- prints that colour, draws a swatch filled with it and refreshes the screen.

The model has seven modules:

- `Types` declares `uint8_t`, `uint16_t` and `uint32_t` as the bit-vectors
  `bv8`, `bv16` and `bv32`. That gives the C operators `|`, `&`, `<<` and `>>`
  their exact meaning.
- `Twi` models the bus-master primitives `TWIstart`, `TWIwrite`,
  `TWIread_ack` and `TWIstop`. Each becomes the bus event it puts on the wire.
  The module also holds the frame format of the I2C-bus specification
  (UM10204, section 3.1.10) as a small state machine: a transfer is a START,
  an address byte carrying the R/W bit, data, optional repeated STARTs, and a
  STOP. `Framed` holds of a trace that follows this format and returns the
  bus to idle.
- `SensorBus` holds the sensor's register map and the two transfers
  `writeData` and `readData`.
- `Peer` is a reference sensor: a register file with a register pointer,
  driven by bus events. The pointer is set by the first byte written after
  the address. Further bytes written are stored at the pointer. In a read the
  peer drives the pointed-to register onto the bus. The register-protocol
  properties are proved against this peer.
- `Color` holds the colour reduction of `colorRead`.
- `Display` lists the calls into the ST7735 library, as opaque events.
- `Program` models channel acquisition, `colorRead`, the inline identity
  read, start-up and one pass of the polling loop. Each is a trace of bus
  events and display calls.

The sensor is a parameter `sensor: Byte -> Byte`: the byte each register read
returns during one cycle. Every register is read at most once per cycle, so
this covers every behaviour of the device, including a sample torn by an
update between two reads.

In the expression `(readData(H) << 8) | readData(L)`, C does not sequence the
two operands. Which register is read first is therefore a parameter (an
`Operand` per channel). The proved properties hold for both orders.

Two properties of the code that a reader might expect otherwise:

- **Monotonicity.** Only the red field of the 5-6-5 colour is monotone in
  its own channel (`Color.TopFieldMonotone`). The green and blue fields are
  not (`Color.MiddleFieldNotMonotone`, `Color.BottomFieldNotMonotone`), for
  two different reasons:
  - The 9-bit pieces of line 230 sit at bits 15, 7 and 0 of the
    intermediate, so red's bit 7 lands in the green field. Green rising from
    0x7FFF to 0x8000 with red's bit 7 set takes the middle field from 63 down
    to 32.
  - Blue's bit 15 lands at bit 8 of the intermediate, and the `0xf8` mask of
    line 231 throws that bit away. Blue rising from 0x7FFF to 0x8000 takes
    the bottom field from 31 down to 0, with red and green both 0.
- **Read order.** C leaves unspecified which byte of a channel is read
  first, so the model allows both orders.

## Model

| member | source | states |
|---|---|---|
| Twi.TwiStart | main.c:144-147 | `TWIstart` puts one event on the bus. It opens a transfer on an idle bus and is a repeated START inside an open one. |
| Twi.TwiWrite | main.c:149-153 | `TWIwrite(data)` puts one byte, `data`, on the bus. After a START it addresses a peer for reading or for writing according to its R/W bit. While transmitting it is a data byte. |
| Twi.TwiReadAck | main.c:168-173 | `TWIread_ack` clocks in one byte, the one the peer drove, and returns it. It is allowed while receiving and not while transmitting. |
| Twi.TwiStop | main.c:192-195 | `TWIstop` puts one event on the bus. It ends an open transfer and frees the bus, and it is not allowed on an idle bus. |
| SensorBus.WriteData | main.c:160-166 | A register write is START, address byte 0x52 (0x29 shifted left with R/W = 0), the register, the data, STOP. It is one complete framed transfer with exactly one START and one STOP. |
| SensorBus.ReadData | main.c:181-190 | A register read is START, 0x52, the register, a repeated START, 0x53 (R/W = 1), one byte read, STOP. The value returned is the byte read. It is framed, with two STARTs and one STOP, and has no STOP before its last event, so the two phases are not split. |
| Peer.WriteDataStores | main.c:160-166 | Against a register-file peer, `writeData(reg, data)` stores `data` in `reg`, changes no other register, leaves the pointer at `reg` and releases the bus. |
| Peer.ReadDataLoads | main.c:181-190 | Against a register-file peer, `readData(reg)` goes through exactly when the byte read is the contents of `reg`. It changes no register and leaves the pointer at `reg`. |
| Peer.WriteThenRead | main.c:160-190 | Round trip: `writeData(reg, v)` then `readData(reg)` succeeds if and only if the byte read back is `v`, whatever the peer held before. |
| Program.Compose | main.c:200-203 | A channel's high byte is the upper half of the 16-bit value and its low byte the lower half. |
| Program.ComposeValue | main.c:200-203 | A channel equals high × 256 + low without wrap-around: divided by 256 it gives back the high byte, and the remainder is the low byte. |
| Program.ReadChannel | main.c:200-203 | One channel is two `readData` transfers, of its high and its low register, in either order (14 bus events). Its value is composed from the two bytes those reads returned. |
| Program.ChannelTraffic | main.c:200-203 | One channel's bus traffic is framed, with four STARTs and two STOPs. |
| Program.ChannelFromPeer | main.c:200-203 | Against a register-file peer, a channel's reads go through if and only if the bytes read are the peer's high and low registers. The value is then high register × 256 + low register, whichever operand is evaluated first. |
| Program.Acquisition | main.c:200-203 | The eight register reads of `colorRead` are 56 bus events: a framed trace with 16 STARTs and 8 STOPs. |
| Program.ColorRead | main.c:197-242 | The sample holds, for clear, red, green and blue, the high byte read composed with the low byte read. The colour drawn is the reduction of that sample. |
| Program.ColorReadShape | main.c:200-242 | In `colorRead` all 56 bus events come before any display call: exactly the first 56 of its 68 events are bus events. The last event is the screen update. |
| Program.ColorReadTraffic | main.c:200-203 | The bus traffic of `colorRead` is the clear, red, green and blue channel reads in that order. It is framed, with 16 STARTs and 8 STOPs. |
| Program.RenderShows | main.c:205-238 | In the drawing for a sample, each channel's text carries the channel's label and value. It is drawn right after the cursor moves to that channel's row (30, 40, 50, 60). The approximate colour is drawn after the cursor moves to row 80. |
| Program.RenderEnds | main.c:240-242 | The drawing for a sample ends with the swatch at (20, 115, 90, 120) filled with the colour, then the screen update. The screen update appears nowhere earlier in the drawing. |
| Program.RenderOrder | main.c:205-241 | The drawing of a sample shows CLEAR, RED, GREEN and BLUE in that order, then the approximate colour, then the swatch filled with that colour. |
| Program.ColorReadDrawing | main.c:205-241 | The same ordering holds within the whole `colorRead` trace, for the sample and colour that trace computed. |
| Program.RenderSwatchOnce | main.c:205-242 | The drawing for a sample is 12 calls, and the only filled rectangle among them is the eleventh, the swatch. |
| Program.DrawingSwatch | main.c:200-242 | Whatever bus traffic comes first, the drawing for a sample after it has one swatch, filled with the colour, second to last. Each channel's text and the approximate colour are drawn before that swatch. |
| Program.ColorReadSwatch | main.c:197-242 | In `colorRead` the only swatch is the one filled with the colour it computed, just before the screen update. The four channel texts and the approximate colour, for the sample it read, are all drawn before it. |
| Program.ColorReadEnds | main.c:241-242 | `colorRead` ends with the swatch and then the screen update. The screen update appears nowhere else. |
| Color.HexColor24 | main.c:230 | The 24-bit intermediate is below 2^24. Its top byte is red's high byte. Its low 7 bits are blue's bits 7..13. |
| Color.HexColor | main.c:231 | Storing the packed colour into the `uint16_t` `hexColor` loses no bit. |
| Color.HexColorWide | main.c:231 | The packed colour fits in 16 bits. Its fields are bits 19..23, 10..15 and 3..7 of the intermediate, on top, in the middle and at the bottom. |
| Color.Reduce | main.c:230-231 | The top field is red's bits 11..15. The middle field is green's bits 10..15 with red's bit 7 at its bit 5. The bottom field is blue's bits 10..14 with green's bit 7 at its bit 4. |
| Color.ReduceAsPack | main.c:230-231 | The colour is the 5-6-5 packing of those three fields. |
| Color.ClearIgnored | main.c:230-231 | The clear channel does not affect the colour. |
| Color.TopFieldMonotone | main.c:230-231 | More red never lowers the top field, whatever green and blue are. |
| Color.MiddleFieldNotMonotone | main.c:230-231 | More green can lower the middle field: green 0x7FFF gives 63 and 0x8000 gives 32 when red's bit 7 is set. |
| Color.BottomFieldNotMonotone | main.c:230-231 | More blue can lower the bottom field: blue 0x7FFF gives 31 and 0x8000 gives 0. |
| Color.WorkedExample | main.c:230-231 | Red 0x3F80, green 0x1F80 and blue 0x0F80 give the intermediate 0x3F9F9F and the colour 0x3CF3, for any clear. |
| Program.SensorInit | main.c:72-75 | The configuration is exactly `writeData` of 0x00 to integration time (0x81), 0xFF to wait time (0x83), 0x00 to control (0x8F) and 0x03 to enable (0x80), in that order. It is framed, with four STARTs and four STOPs and no read. |
| Program.SensorInitConfigures | main.c:72-75 | Against a register-file peer, configuration leaves 0x00 in integration time (0x81), 0xFF in wait time (0x83), 0x00 in control (0x8F) and 0x03 in enable (0x80). Enable is written last. |
| Program.IdentifyInline | main.c:79-90 | The identity read written out in `main` has the same bus events as `readData(0x92)` and ends with the STOP. It draws the text for the byte it read, after that byte is read, and the decorative line (15, 115, 20, 20) in 0x04af. |
| Program.IdentifyInlineNoSwatch | main.c:79-90 | The identity read draws no filled rectangle. |
| Program.StartupHead | main.c:67-69 | Start-up before the first `colorRead` opens with the display initialisation and the clear to white (0xffff). |
| Program.StartupHeadBus | main.c:72-90 | Before the first `colorRead`, the bus traffic is the four configuration writes and then exactly the events of `readData(0x92)`, all framed. |
| Program.StartupHeadDraws | main.c:68-90 | Before the first `colorRead`, start-up draws the text "Device ID: 0x%X" for the byte read, and no swatch. |
| Program.Startup | main.c:63-93 | Start-up opens with the display initialisation and the clear to white (0xffff), the constant `DisplaySetup`. Its bus traffic is the four configuration writes first, then the identity read, then the reads of `colorRead`. All of it is framed. |
| Program.PollHead | main.c:99-113 | A pass, before its `colorRead`, opens with the clear to white (0xffff). |
| Program.PollHeadBus | main.c:99-113 | The bus traffic of a pass before its `colorRead` is exactly the events of `readData(0x92)`. |
| Program.PollHeadDraws | main.c:99-113 | A pass, before its `colorRead`, draws the text "Device ID:0x%X" for the byte read, and no swatch. |
| Program.PollIteration | main.c:95-117 | A pass of the polling loop starts by clearing the screen and ends with the screen update. |
| Program.PollIterationTraffic | main.c:101-116 | The bus traffic of a pass is the identity read followed by the reads of `colorRead`, and it is framed. |
| Program.PollIterationDrawing | main.c:99-116 | A pass ends with all 68 events of its `colorRead`. Its only swatch is the one `colorRead` fills with the colour it computed, second to last. The text "Device ID:0x%X" for the byte read, the four channel texts and the approximate colour are all drawn before that swatch. |
| Program.StartupDrawing | main.c:63-93 | Start-up ends with all 68 events of its `colorRead`. Its only swatch is the one `colorRead` fills with the colour it computed, second to last. The text "Device ID: 0x%X" for the byte read, the four channel texts and the approximate colour are all drawn before that swatch. |

## Left out

- The TWI hardware is left out: the `TWCR`/`TWDR` register writes, the busy-waits on `TWINT` and `TWSTO`, and `TWIinit`'s bit-rate set-up. Each primitive is modelled as the bus event it produces.
- Status codes (`TWSR`) and acknowledge bits are left out. The code never checks them, so a missing acknowledge changes nothing it does.
- A peer that stalls the bus, and the resulting hang, is left out.
- All `_delay_ms` pauses are left out. They only add time between events.
- `sprintf` formatting is left out. A drawn text is recorded as its format string and the value formatted.
- The text-size argument `X1` of every `DrawString` call (lines 87, 110, 208, 214, 220, 226 and 237) is not recorded. `X1` is defined in the ST7735 library, which is not part of this model, and every call passes the same value.
- The 10-byte `data` buffers in `main` are too small for the identity texts. "Device ID: 0x%X" at line 86 needs at least 14 characters plus the terminator, and "Device ID:0x%X" at line 109 needs at least 13. These overflows are not modelled.
- The UART functions are left out. `main` never calls them.
- The ST7735 library is left out. Its calls are recorded in order and their effect on the panel is not modelled.
- The `memset` calls on `string` are left out. They do not affect any call the model records.
- Only the start-up and one pass of the endless polling loop are modelled. Later passes repeat the same pass.
- Program.Compose: in avr-gcc, `readData(H) << 8` is done in 16-bit `int`, which overflows the sign bit when the high byte is at least 0x80. The model takes the bits that end up in the `uint16_t`, which is what the compiler produces.
- Program.ReadChannel: the order of the high and low reads within a channel is not fixed, because C leaves it unspecified. The contract allows either order.
- Program.ColorReadShape: the number of bus events (56) and the position of the screen update are stated. The order of the reads between channels is stated in Program.ColorReadTraffic.
