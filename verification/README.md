# Three small Linux drivers, modelled in Dafny

This project models the data paths of three small Linux drivers for a
Raspberry-Pi-era board. It also proves properties about each model.

- **BCM2708 serial MIDI output** (`sound/arm/bcm2708_midi.c`). The rawmidi
  `trigger` callback fills a 128-byte kfifo. The UART1 transmit interrupt
  drains it into the UART data register, up to eight bytes per interrupt.
  When it finds the fifo empty, it disables itself. Each handler (`open`, `close`,
  `trigger`, the interrupt) is one atomic transition of a state holding:
  - the fifo contents;
  - the interrupt-enable flag;
  - the bytes written to the UART so far;
  - the bytes enqueued and drained since the last `open`.

  These last two are bookkeeping used to state the FIFO law.
- **PGA2310 family volume control** (`drivers/iio/amplifiers/pga2310.c`).
  The IIO hardware-gain attribute takes a gain in dB as integer and micro
  parts. The driver truncates it to tenths of a dB, checks it against the
  range -96.0 .. +31.5 dB, and stores it as an 8-bit code in half-dB steps
  (0 is mute, 192 is 0 dB). It then sends every channel's code in one SPI
  transfer. Reading converts the code back to integer and micro parts.
- **HD44780 character display** (`drivers/auxdisplay/hd44780.c`, with
  constants from `include/linux/hd44780.h`). Each sysfs handler is modelled
  as the trace of controller accesses it makes (command bytes, data bytes,
  status reads, character reads) together with the value it returns.
  - Covered handlers: `display`, `cursor` and the initialisation sequence.
  - A second module, `Hd44780Bus`, models how each access is clocked over
    D4..D7 as two enable pulses. It proves that latching those pulses gives
    the trace back.

`common.dfy` holds what the three share:
- bytes and `Option`;
- C's truncating division;
- bitwise AND and OR;
- `strlen`.

Three behaviours of the code worth knowing:
- `bcm2708_midi_trigger` enables the transmit interrupt whenever the fifo
  had room, even when the rawmidi layer returned no bytes (see
  `Bcm2708Midi.Trigger`).
- `bcm2708_midi_open` only resets the fifo. It does not disable the
  interrupt (see `Bcm2708Midi.Open`).
- The comment beside `pga2310_write_raw`'s range check says 35.5 dB. The
  check itself accepts at most 315 tenths, that is +31.5 dB (code 255).

## Model

| member | source | states |
|---|---|---|
| Bcm2708Midi.Loaded | sound/arm/bcm2708_midi.c:188-200 | After the fifo is allocated it is empty, nothing has been sent, and the state meets the FIFO invariant. |
| Bcm2708Midi.Avail | sound/arm/bcm2708_midi.c:140 | Free space plus occupancy is the capacity, 128. The fifo is full exactly when no space is left. |
| Bcm2708Midi.ActivateIrq | sound/arm/bcm2708_midi.c:67-71 | Enabling the transmit interrupt sets the flag and leaves every other part of the state unchanged. |
| Bcm2708Midi.DeactivateIrq | sound/arm/bcm2708_midi.c:73-77 | Disabling the transmit interrupt clears the flag and leaves every other part of the state unchanged. |
| Bcm2708Midi.IrqGateIdempotent | sound/arm/bcm2708_midi.c:67-77 | Enabling twice is the same as once, and so is disabling. Enabling after disabling is the same as enabling. Enabling an armed state changes nothing. |
| Bcm2708Midi.Transmit | sound/arm/bcm2708_midi.c:79-84 | The UART output grows by exactly the first `num` bytes of the buffer, in order. |
| Bcm2708Midi.Interrupt | sound/arm/bcm2708_midi.c:86-99 | No byte is lost or reordered between fifo and UART. A non-empty fifo sends min(8, occupancy) bytes and keeps the flag. An empty fifo sends nothing and disables the interrupt. |
| Bcm2708Midi.Trigger | sound/arm/bcm2708_midi.c:133-155 | A full fifo gives a dropout report and no other change, and the rawmidi layer is not asked. Otherwise it asks for exactly the free space and queues the first min(got, free) bytes after the old contents. It then arms the interrupt. It reports the count lost exactly when more bytes arrived than fit. |
| Bcm2708Midi.Open | sound/arm/bcm2708_midi.c:120-126 | The fifo and its history are emptied. The interrupt flag and the UART output are kept. The invariant holds afterwards. |
| Bcm2708Midi.Close | sound/arm/bcm2708_midi.c:128-131 | Closing changes nothing: queued bytes stay queued, the flag is kept, and the invariant is preserved. |
| Bcm2708Midi.ApplyKeepsInv | sound/arm/bcm2708_midi.c:120-155 | Each of open, close, trigger and interrupt keeps the invariant. The invariant says: at most 128 bytes queued; a non-empty fifo has the transmit interrupt armed; drained bytes followed by queued bytes are the enqueued bytes; drained bytes are the tail of the UART output. |
| Bcm2708Midi.Run | sound/arm/bcm2708_midi.c:86-155 | Any sequence of handler calls from a state meeting the invariant ends in a state meeting it. |
| Bcm2708Midi.FifoLaw | sound/arm/bcm2708_midi.c:86-155 | After any sequence of handler calls, the fifo holds at most 128 bytes. The bytes sent since the last open are a prefix of those enqueued since then. Their difference in length is the fifo occupancy. |
| Bcm2708Midi.DrainUntilIdle | sound/arm/bcm2708_midi.c:86-99 | From any state whose queued bytes have the interrupt armed, interrupts send the whole fifo to the UART in order and end disarmed. From an armed state this takes ceil(n/8) + 1 interrupts for n queued bytes; a disarmed state takes none. |
| Bcm2708Midi.DrainReachable | sound/arm/bcm2708_midi.c:86-155 | No byte is stranded: after any sequence of handler calls, interrupts send everything still queued and end disarmed, and the UART output then ends with every byte enqueued since the last open, in order. |
| Bcm2708Midi.LastChunkKeepsArmed | sound/arm/bcm2708_midi.c:92-97 | The interrupt that sends the last bytes leaves the interrupt enabled. Only the next one, which finds the fifo empty, disables it. |
| Bcm2708Midi.OverrunThenDrain | sound/arm/bcm2708_midi.c:140-153 | 200 bytes offered to an empty fifo: 128 are queued, 72 are reported lost, and the interrupt is armed. One interrupt then sends the first 8 and leaves 120 queued, still armed. |
| Bcm2708Midi.BaudDivisor | sound/arm/bcm2708_midi.c:110 | The UART1BAUD value 999 divides the 250 MHz clock to exactly 31250 baud, with no remainder. |
| Pga2310.LookupId | drivers/iio/amplifiers/pga2310.c:207-213 | A device name is found exactly when it is in the id table. When found, the result is the layout the table gives that name. |
| Pga2310.Probed | drivers/iio/amplifiers/pga2310.c:186-191 | A probed device has one code per channel of its layout, and every code is 0 (mute). |
| Pga2310.ProbeTable | drivers/iio/amplifiers/pga2310.c:152-161 | pga2310, pga2311 and pga2320 get two channels and pga4311 gets four. Every channel starts muted. |
| Pga2310.SpiWrite | drivers/iio/amplifiers/pga2310.c:34-49 | The transmit buffer becomes the per-channel codes, and that buffer is the frame sent, one byte per channel in channel order. |
| Pga2310.GainTenths | drivers/iio/amplifiers/pga2310.c:90-91 | The tenths of a dB are the integer dB times ten plus the micro part's whole tenths. The micro part is truncated toward zero. |
| Pga2310.CodeOf | drivers/iio/amplifiers/pga2310.c:97 | The code counts whole half-dB steps above -96 dB, rounding down. -96 dB gives 0 and +31.5 dB gives 255. |
| Pga2310.WriteRaw | drivers/iio/amplifiers/pga2310.c:82-111 | A gain outside -96.0 .. +31.5 dB, or a mask other than hardware gain, is rejected with -EINVAL and nothing changes or is sent. An accepted gain sets only its channel's code, sends all channels' codes, and returns the SPI status. |
| Pga2310.ToFrac | drivers/iio/amplifiers/pga2310.c:51-57 | The micro part is 0 for an even code and 500000 for an odd one. Integer and micro part add back to the gain for a gain of 0 or more. For a negative gain they subtract to it, because the micro part is unsigned. |
| Pga2310.ToFracEnds | drivers/iio/amplifiers/pga2310.c:51-57 | Code 0 reads as (-96, 0), code 192 as (0, 0) and code 255 as (31, 500000). |
| Pga2310.ReadRaw | drivers/iio/amplifiers/pga2310.c:59-80 | A read succeeds exactly for the hardware-gain mask, in the integer-minus-micro-dB format, with the stored code's integer and micro parts. Any other mask gives -EINVAL. |
| Pga2310.WriteRawFormat | drivers/iio/amplifiers/pga2310.c:113-118 | Written values are always parsed as integer plus micro. |
| Pga2310.StoredGainReadsBack | drivers/iio/amplifiers/pga2310.c:51-57 | Any in-range gain that is a whole number of half-dB steps, once stored, reads back as exactly that gain. |
| Pga2310.ReadWriteRoundTrip | drivers/iio/amplifiers/pga2310.c:51-97 | Writing back what a read reports reproduces the stored code exactly when the code is at least 192 or even. An odd code below 192 comes back two steps higher. |
| Hd44780.Uses8BitBus | drivers/auxdisplay/hd44780.c:172 | The `mode & HD44780_MODE_8BIT` test never holds, because the 8-bit mode has value 0. Every access therefore takes the 4-bit path. |
| Hd44780.FunctionSetAsWritten | drivers/auxdisplay/hd44780.c:253-261 | For one or two lines the command is 0x20 + 0x10·mode + 0x08·(lines-1) + 0x04·font. Its DL bit (bit 4) is set exactly for the write-only mode. |
| Hd44780.FunctionSetSelects8BitBus | drivers/auxdisplay/hd44780.c:253-261 | The driver sends 0x38 (8-bit interface) to a write-only two-line panel and 0x30 to a three-line one. The corrected command has DL clear. |
| Hd44780.FunctionSet | drivers/auxdisplay/hd44780.c:253-261 | Corrected function set: instruction bit set, DL clear, N set exactly for more than one line, F set exactly for the 5x10 font. |
| Hd44780.FunctionSetAgrees | drivers/auxdisplay/hd44780.c:253-261 | The corrected command equals the driver's for the mode of value 0 on one- and two-line panels. |
| Hd44780.InitSequence | drivers/auxdisplay/hd44780.c:275-295 | Initialisation sends reset, reset, 4-bit mode, function set, display on, entry mode, clear and home, in that order. It then sends one data byte per character of the init text, up to its NUL. For the mode of value 0 on a panel of one or two lines, the function set it sends is the corrected one. |
| Hd44780.Walk | drivers/auxdisplay/hd44780.c:71-86 | Each byte walked emits exactly one access, and the line number stays between 1 and the panel height. |
| Hd44780.WriteDisplay | drivers/auxdisplay/hd44780.c:62-88 | Writing sends home, then one access per byte up to the NUL or `count`. The data sent are exactly the bytes that do not end a line, in order. The k-th line end emits home exactly when it ends the last line of the cycle. The return is strlen + 1. |
| Hd44780.WalkSendsShown | drivers/auxdisplay/hd44780.c:72-86 | The data bytes of a walk are the walked bytes minus the newlines and the byte at index `width`, which are consumed and not shown. |
| Hd44780.WalkAccessPerByte | drivers/auxdisplay/hd44780.c:71-86 | The j-th byte walked emits the j-th access: a line-end command exactly when the byte is a newline or sits at index `width`, and otherwise that byte as data. |
| Hd44780.WalkCommandsCycle | drivers/auxdisplay/hd44780.c:73-81 | The line-end commands cycle through lines 1..height whatever bytes lie between them. "Home" comes exactly on the last line and "go to line 2" otherwise. |
| Hd44780.OneLinePanelOnlyGoesHome | drivers/auxdisplay/hd44780.c:73-77 | On a one-line panel every line end sends the cursor home. |
| Hd44780.FetchLine | drivers/auxdisplay/hd44780.c:43-44 | Fetching one line appends exactly the next `width` characters the controller returns to the buffer, in order, with one data-mode read each. |
| Hd44780.ReadLines | drivers/auxdisplay/hd44780.c:41-57 | The first line is read from DDRAM address 0, and a second line after "go to line 2" only on a multi-line panel. Each line is followed by a newline. |
| Hd44780.ReadDisplay | drivers/auxdisplay/hd44780.c:33-60 | Reading sets DDRAM address 0, fetches one line, and on a multi-line panel goes to line 2 and fetches another. The buffer is line 1, newline, [line 2, newline,] NUL. The return is strlen + 1, which is the buffer length when no fetched character is NUL. |
| Hd44780.CursorAddress | drivers/auxdisplay/hd44780.c:148-155 | A position on line 1 is its own address. Any later position maps to 0x40 plus its column, so it stays inside line 2's address range. |
| Hd44780.WriteCursor | drivers/auxdisplay/hd44780.c:131-158 | The result is -EINVAL, with no command sent, exactly when the position is negative or off the panel. Otherwise one "set DDRAM address" command is sent to the column on line 1 or on line 2, and the return is strlen + 1. |
| Hd44780.ReadCursorAsWritten | drivers/auxdisplay/hd44780.c:108-129 | The driver maps addresses below the width to themselves. It maps addresses strictly after 0x40, within the width, to width plus column. The address 0x40 itself maps to -1. |
| Hd44780.ReadCursor | drivers/auxdisplay/hd44780.c:108-129 | Corrected read: an address on line 1 or line 2, 0x40 included, maps back to its cursor position. Any other address maps to -1. |
| Hd44780.CursorRoundTrip | drivers/auxdisplay/hd44780.c:116-155 | Reading the cursor after setting it, with or without the busy flag, gives the position set, for every position on the first two lines. |
| Hd44780.CursorRoundTripAsWritten | drivers/auxdisplay/hd44780.c:116-155 | The driver's read gives back every position set except exactly one, the first cell of line 2, which reads as -1. |
| Hd44780.LineTwoStartReadsMinusOne | drivers/auxdisplay/hd44780.c:116-125 | On a 16x2 panel, position 16 is written as command 0xC0. The driver reads address 0x40 back as -1, and the corrected read gives 16. |
| Hd44780Bus.ReadByte | drivers/auxdisplay/hd44780.c:188-208 | Reading on the 4-bit bus gives 16 times the first pulse's nibble plus the second pulse's nibble. |
| Hd44780Bus.Strobes | drivers/auxdisplay/hd44780.c:213-240 | One write is two enable pulses with the same RS and R/W. RS is high exactly for data and R/W exactly for reads. The first pulse drives bits 7..4 of the byte on D7..D4, the second bits 3..0. |
| Hd44780Bus.NibbleRoundTrip | drivers/auxdisplay/hd44780.c:227-240 | The nibbles the write path drives on its two pulses, shifted back in as the read path does, give back the byte. |
| Hd44780Bus.AccessOfStrobes | drivers/auxdisplay/hd44780.c:213-240 | The two enable pulses of one access latch back to that access. |
| Hd44780Bus.BusRoundTrip | drivers/auxdisplay/hd44780.c:213-251 | Latching the pulses of any trace recovers that trace, access for access. |

## Left out

- Register and GPIO writes, `udelay`/`msleep` timing and pin direction
  changes are not modelled. A register write that matters (interrupt enable,
  UART data) is a state change, and a pulse is a `Strobe`.
- Concurrency: the IIO `mlock` mutex is not modelled. Nor is the rawmidi
  callbacks racing the interrupt. Every handler is one atomic step.
- Probe, remove and module registration are left out: `snd_card`, rawmidi
  device creation, `iio_device_register`, GPIO requests,
  `hd44780_free_gpio` and the platform-data checks. So are their allocation
  failures. Only the state that probe leaves is modelled (`Loaded`,
  `Probed`).
- `bcm2708_midi_init`'s UART programming is left out, except for the baud
  divisor.
- Bcm2708Midi.Trigger: the driver ignores trigger's `up` argument, so the
  model has no such parameter.
- Bcm2708Midi.Trigger: `snd_rawmidi_transmit` is a parameter (`provide`).
  The `dev_err` messages are a `Report` value, not text.
- Bcm2708Midi.Trigger: a negative error return from `snd_rawmidi_transmit`
  is not modelled; `provide` always hands over a byte sequence. The driver
  asks for at most the free space (`av`), so the `Lost` report, and
  `OverrunThenDrain`, apply only if the rawmidi layer hands over more than
  it was asked for.
- Bcm2708Midi.Loaded: probe does not write the interrupt-enable register,
  so its initial state is a parameter.
- Pga2310.WriteRaw: C signed overflow is not modelled. `integer * 10`,
  `fractional`, and `integer * 10 + fractional / 100000` must each fit a
  32-bit `int`.
- Pga2310.WriteRaw: the SPI transfer's result is a parameter (`spiStatus`).
  The `dev_err` on a failed write is not modelled.
- Pga2310.Amp: the driver's four-byte `volume` and `tx_buf` arrays are
  modelled with exactly `num_channels` entries, because the other entries
  are never read.
- Hd44780.WriteCursor: `kstrtol` is not modelled. The parsed position is a
  parameter, and the parse-error return is left out.
- Hd44780.ReadCursorAsWritten: the byte the status read stores into the
  low byte of `pos` is the parameter. The other bytes of `pos` are never
  written, but `pos &= 0x7F` clears them. The `snprintf` to text and its
  return value are not modelled.
- Hd44780.ValidFormat: panels wider than 64 columns or taller than 64 lines
  are excluded, which keeps line-2 addresses inside the 7-bit DDRAM
  address. The line-2 logic only addresses two lines in any case.
- `read_char` and `write_char` (single-character attributes) are not part of
  this model.
- The 8-bit bus branches of `hd44780_read` and `hd44780_write` are not
  modelled. They can never run, as `Hd44780.Uses8BitBus` shows.
- Hd44780.InitSequence sends the driver's own function-set byte
  (`FunctionSetAsWritten`). Its contract ties that byte to the corrected
  `FunctionSet` only where the two agree (mode value 0, one or two lines).

## Findings

| source | as written | input that shows it | evidently intended | confidence | as-written member | corrected member |
|---|---|---|---|---|---|---|
| drivers/auxdisplay/hd44780.c:118 | `pos > HD44780_LINE2_START` sends address 0x40, the first cell of line 2, to the line-1 test, which answers -1 | 16x2 panel: writing cursor 16 sends 0xC0 (address 0x40); reading the cursor then reports -1 instead of 16 | `pos >= HD44780_LINE2_START`, so 0x40 reads as position `width` | high; not executed | Hd44780.ReadCursorAsWritten, Hd44780.CursorRoundTripAsWritten, Hd44780.LineTwoStartReadsMinusOne | Hd44780.ReadCursor, Hd44780.CursorRoundTrip |
| drivers/auxdisplay/hd44780.c:255-258 | the mode value is shifted into bit 4 of the function-set command, which is the controller's DL (8-bit interface) bit, and `lines` is `height - 1` shifted into bit 3 | write-only two-line panel: command 0x38 selects the 8-bit interface while the driver drives only D4..D7; a three-line panel gives 0x30, with the N bit clear | DL clear on the 4-bit bus, N set for more than one line | medium; not executed | Hd44780.FunctionSetAsWritten, Hd44780.FunctionSetSelects8BitBus | Hd44780.FunctionSet, Hd44780.FunctionSetAgrees |
