# arduino-env-monitor core, modelled in Dafny

This project models the firmware of an ATmega-based environment monitor. The firmware is a BME280 temperature, pressure and humidity sensor behind an I2C (TWI) bus. It has a serial console that takes read commands, an SH1106 OLED display, and a stand-alone I2C address scanner. The model proves properties of each part:

- **TWI master drivers** (`ctypes.dfy`, `twi_spec.dfy`, `twi_hw.dfy`, `i2c.dfy`, `i2c_lower.dfy`).
  - The hardware is a class `TwiHw.Twi`:
    - an oracle answers every bus primitive with a status byte and a data byte, indexed by the primitive's position on the bus;
    - a trace field records the primitives issued: START with its address byte, a data write, an ACK read, a NACK read, STOP;
    - two fields hold the prescaler and TWBR.
  - The helpers `write_reg`, `read_reg` and `read_regs` are specified once, on values, in `TwiSpec`. The first status that differs from its expected literal (0x18, 0x28 or 0x40) aborts the call: a STOP follows and that status is returned.
  - Both copies of the driver are proved against that one specification: the upper-case `I2C_*` copy as `I2c` and the lower-case `i2c_*` copy as `I2cLower`. So both issue the same primitives and return the same status for every bus.
- **Interrupt-fed serial queues** (`ring.dfy`, `uart.dfy`).
  - The circular-buffer discipline is specified by `RingSpec.Window`: the queued bytes, oldest first.
  - `Uart.Usart` holds the two static buffers and their `uint8_t` head and tail indices. Its methods are the main-context operations and the two interrupt handlers.
  - The handlers run atomically. A busy-wait loop becomes a precondition.
- **BME280 driver** (`bme280_math.dfy`, `bme280.dfy`).
  - Byte assembly of raw readings and calibration words.
  - The standby-time setting.
  - The integer compensation formulas of the Bosch BME280 datasheet (section 4.2.3), up to the final floating-point division.
  - The driver's static calibration state, as class `Bme280.Sensor`.
  - The exact sequence of register reads and writes that initialisation issues.
- **Serial command proxy** (`proxy.dfy`).
  - `str_to_lower`.
  - `strtok_r` over the delimiters space, tab, `,`, `;` and `:`.
  - Case-insensitive matching of the command words.
  - The three-request limit.
  - The quit rules.
  - The order of the sensor reads of one round: the temperature once, first, then the requests in order.
  - The whole command loop over a sequence of typed lines.
- **SH1106 OLED driver** (`oled.dfy`). The byte streams that `oled_init`, `oled_clear` and `oled_print_line` send, as `write_reg` calls to register 0x00 (commands) and 0x40 (data) of address 0x3C.
- **I2C scanner** (`scanner.dfy`). The loop of `main`, which probes addresses 1..126 and reports the ones that answer.

Conventions used throughout:
- Integers are unbounded. C's `uint8_t` is the subset type `CTypes.byte`.
- Signed right shifts are arithmetic on avr-gcc, so they are floor division by a power of two (`CTypes.Asr`).
- C's `/` truncates toward zero (`CTypes.DivTrunc`).
- `|` and `&` on non-negative values are defined bit by bit (`CTypes.BitOr`, `CTypes.BitAnd`). They are proved equal to the arithmetic forms used elsewhere.
- The clients of the bus state their trace as a plan of helper calls. A plan is a `TwiSpec.Plan` or, for the display, a `seq<Oled.Sent>`. The trace is run by a ghost parameter `run`, and the precondition `Runs(run, oracle, dev)` ties `run` to the helper specifications. `TwiSpec.Runner(oracle, dev)` is such a `run` (`TwiSpec.RunnerRuns`).

## Model

| member | source | states |
|---|---|---|
| CTypes.AsrFloor | src/sensors/bme280.c:137-140 | a signed `x >> k` is the largest r with r * 2^k <= x (rounds toward minus infinity) |
| CTypes.DivTrunc | src/sensors/bme280.c:162 | C division: the remainder is smaller than the divisor in magnitude and has the sign of the dividend |
| CTypes.ToInt16 | src/sensors/bme280.c:31-33 | `(int16_t)u` lies in -32768..32767, is congruent to u mod 2^16, and is negative exactly when u >= 0x8000 |
| CTypes.ToInt8 | src/sensors/bme280.c:104 | `(int8_t)b` lies in -128..127, is congruent to b mod 256, and is negative exactly when b >= 0x80 |
| CTypes.CStrLen | avr_common/uart/uart.c:56-57 | the length of a byte C string is the index of its first NUL, or the buffer length when there is none |
| CTypes.StrLen | src/display/oled.c:61 | the length of a char C string is the index of its first NUL, or the buffer length when there is none |
| CTypes.OrDisjoint | src/sensors/bme280.c:38 | OR-ing a value below 2^k into a value whose low k bits are clear is addition |
| CTypes.AndMask | src/sensors/bme280.c:97 | AND with 2^k - 1 is the remainder modulo 2^k |
| TwiSpec.AddressByte | avr_common/i2c/i2c.c:26 | the SLA byte carries the 7 address bits above the mode's low bit, truncated to 8 bits |
| TwiSpec.AddressByteBits | avr_common/i2c/i2c.c:26 | the SLA byte equals `((addr << 1) mod 256) \| (mode & 0x01)` computed bit by bit |
| TwiSpec.StatusBits | avr_common/i2c/i2c.c:30 | the returned status is TWSR with its low 3 bits cleared: a multiple of 8 within 7 below TWSR |
| TwiSpec.StatusBitsMask | avr_common/i2c/i2c.c:30 | that status equals `TWSR & 0xF8` computed bit by bit |
| TwiSpec.FirstMismatch | avr_common/i2c/i2c.c:84-86 | the index of the first checked step whose status is not the expected literal: every earlier step matched and this one did not |
| TwiSpec.HelpersStopOnce | avr_common/i2c/i2c.c:82-129 | on every path of `write_reg`, `read_reg` and `read_regs`, the last primitive is STOP and no earlier primitive is a STOP |
| TwiSpec.WriteRegRun | avr_common/i2c/i2c.c:82-89 | defines the outcome of `write_reg` on the bus: the statuses checked in order, STOP after the first mismatch or after the value, and its status, trace and data |
| TwiSpec.ReadRegRun | avr_common/i2c/i2c.c:99-107 | defines the outcome of `read_reg`: the three checked steps, then one NACK read delivering TWDR and STOP |
| TwiSpec.ReadRegsRun | avr_common/i2c/i2c.c:117-129 | defines the outcome of `read_regs`: the three checked steps, then len-1 ACK reads, one NACK read and STOP, delivering the bytes in order |
| TwiSpec.WriteRegSuccess | avr_common/i2c/i2c.c:82-89 | `write_reg` succeeds iff the statuses are 0x18, 0x28, 0x28; it then issued START(dev,W), reg, val, STOP and returns 0 |
| TwiSpec.WriteRegAbort | avr_common/i2c/i2c.c:84-86 | on failure, the first mismatching status is returned unchanged, after the primitives up to that step and one STOP, and nothing else |
| TwiSpec.ReadRegSuccess | avr_common/i2c/i2c.c:99-107 | `read_reg` succeeds iff the statuses are 0x18, 0x28, 0x40; it then issued START(W), reg, a repeated START(R) with no STOP before it, one NACK read and STOP, and it delivers the byte read |
| TwiSpec.WriteThenRead | avr_common/i2c/i2c.c:82-107 | round trip: a successful `write_reg(dev, reg, val)` followed by a successful `read_reg(dev, reg)` reads back val, against a device that keeps what was written; both calls address reg and return 0 |
| TwiSpec.ReadRegAbort | avr_common/i2c/i2c.c:101-103 | on failure, the first mismatching status is returned after exactly one STOP; no read happens |
| TwiSpec.ReadRegsSuccess | avr_common/i2c/i2c.c:117-129 | `read_regs` succeeds iff the statuses are 0x18, 0x28, 0x40; then len-1 ACK reads, one NACK read and STOP follow the opening, and the len bytes are delivered in read order |
| TwiSpec.ReadRegsAbort | avr_common/i2c/i2c.c:119-121 | on failure, the first mismatching status is returned after exactly one STOP; no read happens |
| TwiSpec.WriteRegCases | avr_common/i2c/i2c.c:84-88 | the outcome of `write_reg` for each of its four paths, in the order the source tests them |
| TwiSpec.ReadRegCases | avr_common/i2c/i2c.c:101-106 | the outcome of `read_reg` for each of its four paths |
| TwiSpec.ReadRegsCases | avr_common/i2c/i2c.c:119-128 | the outcome of `read_regs` for each of its four paths |
| TwiSpec.WriteRegZeroStatus | avr_common/i2c/i2c.c:84-88 | `write_reg` returns 0 iff it succeeded or its first mismatching status was 0x00 |
| TwiSpec.BusErrorReadsAsSuccess | avr_common/i2c/i2c.c:84 | with status 0x00 (bus error) after the START, `write_reg` issues only START and STOP yet returns 0 |
| TwiHw.Twi.Transfer | avr_common/i2c/i2c.c:48-51 | one primitive is appended to the trace, and the TWSR and TWDR the oracle gives for its position are returned |
| TwiHw.TwbrFor | avr_common/i2c/i2c.c:10 | the TWBR value, computed in 32-bit unsigned arithmetic and truncated to 8 bits, is `(F_CPU/100000 - 16)/2` for every CPU clock in 1.6..52.8 MHz |
| TwiHw.TwbrAt16MHz | avr_common/i2c/i2c.c:9-10 | at 16 MHz TWBR is 72 and the SCL clock is exactly 100 kHz |
| TwiHw.TwbrGives100kHz | avr_common/i2c/i2c.c:6-10 | for every CPU clock that is a multiple of 200 kHz in 1.6..52.8 MHz, the divisor gives a 100 kHz SCL clock |
| I2c.Init | avr_common/i2c/i2c.c:8-11 | prescaler 0 and TWBR from the 100 kHz formula |
| I2c.Start | avr_common/i2c/i2c.c:20-31 | START with the SLA byte is issued; the masked status of that primitive is returned |
| I2c.Stop | avr_common/i2c/i2c.c:37-40 | exactly one STOP is issued |
| I2c.Write | avr_common/i2c/i2c.c:47-52 | one data write is issued; its masked status is returned |
| I2c.ReadAck | avr_common/i2c/i2c.c:58-62 | one ACK read is issued; the byte it reads is returned |
| I2c.ReadNack | avr_common/i2c/i2c.c:68-72 | one NACK read is issued; the byte it reads is returned |
| I2c.WriteReg | avr_common/i2c/i2c.c:82-89 | the primitives issued and the status returned are those `TwiSpec` gives for `write_reg` |
| I2c.ReadReg | avr_common/i2c/i2c.c:99-107 | primitives and status as specified; `*out` gets the byte read on success and keeps its old value on failure |
| I2c.ReadBurst | avr_common/i2c/i2c.c:123-127 | len-1 ACK reads, one NACK read and STOP; `buf[0..len-1]` holds the bytes read in order, and the rest of `buf` is unchanged |
| I2c.ReadRegs | avr_common/i2c/i2c.c:117-129 | primitives and status as specified; on success `buf` starts with the len bytes read, and on failure `buf` is unchanged |
| I2cLower.Init | avr_common/i2c.c:3-8 | prescaler 0 and TWBR from the 100 kHz formula |
| I2cLower.Start | avr_common/i2c.c:10-21 | START with the SLA byte is issued; its masked status is returned |
| I2cLower.Stop | avr_common/i2c.c:23-26 | exactly one STOP is issued |
| I2cLower.Write | avr_common/i2c.c:28-33 | one data write is issued; its masked status is returned |
| I2cLower.ReadAck | avr_common/i2c.c:35-39 | one ACK read is issued; the byte it reads is returned |
| I2cLower.ReadNack | avr_common/i2c.c:41-45 | one NACK read is issued; the byte it reads is returned |
| I2cLower.WriteReg | avr_common/i2c.c:49-56 | the same primitives and status as `I2c.WriteReg`, for every bus |
| I2cLower.ReadReg | avr_common/i2c.c:58-66 | the same primitives, status and `*out` as `I2c.ReadReg`, for every bus |
| I2cLower.ReadBurst | avr_common/i2c.c:73-75 | len-1 ACK reads, one NACK read and STOP, filling `buf[0..len-1]` in read order |
| I2cLower.ReadRegs | avr_common/i2c.c:68-77 | the same primitives, status and buffer contents as `I2c.ReadRegs`, for every bus |
| RingSpec.Window | avr_common/uart/uart.c:6-10 | the queued bytes of a buffer with head and tail indices, oldest first; there are head - tail of them, counted around the end |
| RingSpec.Next | avr_common/uart/uart.c:32 | the index after i is `(i + 1) % N` and stays in range |
| RingSpec.WindowBounds | avr_common/uart/uart.c:32-46 | a queue is empty iff head == tail; it never holds more than N-1 bytes; the "next == tail" test is true iff it holds N-1 |
| RingSpec.WindowPush | avr_common/uart/uart.c:35-36 | storing at head and advancing head on a queue that is not full appends the byte and keeps the rest |
| RingSpec.WindowPop | avr_common/uart/uart.c:47-48 | on a non-empty queue, the slot at tail is the oldest byte, and advancing tail removes exactly that byte |
| Uart.ReadLine | avr_common/uart/uart.c:64-76 | what a line read stores and consumes: at most `room` bytes stored, never more consumed than were available |
| Uart.ReadLineSound | avr_common/uart/uart.c:64-76 | the stored bytes are the input's prefix with no CR or LF; the read stopped either at a consumed, unstored terminator or with the room full |
| Uart.ReadLineComplete | avr_common/uart/uart.c:64-76 | that description has exactly one solution, the line reader's result |
| Uart.ReadLineDefined | avr_common/uart/uart.c:67-68 | a line read completes iff the input holds a terminator or at least `room` bytes |
| Uart.ReadLineStable | avr_common/uart/uart.c:67-73 | bytes arriving after a completed line do not change what that line read returns |
| Uart.Usart.constructor | avr_common/uart/uart.c:6-10 | both queues start empty, nothing has been sent, and the transmit interrupt is disabled |
| Uart.Usart.PutChar | avr_common/uart/uart.c:31-39 | data is stored at the old `tx_head` and every other slot is unchanged; head advances mod N, `tx_tail` is unchanged, the TX queue gains data at its end, and UDRIE is set |
| Uart.Usart.GetChar | avr_common/uart/uart.c:45-50 | the oldest received byte is returned and removed; `rx_tail` advances mod N |
| Uart.Usart.PutString | avr_common/uart/uart.c:56-58 | the TX queue gains exactly the bytes of `s` before its NUL, in order; UDRIE is set iff there was at least one or it was already set |
| Uart.Usart.GetString | avr_common/uart/uart.c:64-76 | `buf[0..n-1]` holds the bytes before the first CR or LF, at most maxlen-1 of them; the terminator is consumed but not stored; `buf[n]` is NUL and the rest of `buf` is unchanged |
| Uart.Usart.RxIsr | avr_common/uart/uart.c:82-90 | on a full queue the byte is dropped and head, slots and contents are unchanged; otherwise it is stored at head, head advances, and the queue gains it at its end |
| Uart.Usart.UdreIsr | avr_common/uart/uart.c:96-103 | on an empty queue only UDRIE is cleared; otherwise `tx_buf[tx_tail]` is sent and tail advances; sent bytes followed by queued bytes never change |
| Bme280Math.Word16 | src/sensors/bme280.c:28 | `buf[1] << 8 \| buf[0]` is the little-endian word hi * 256 + lo |
| Bme280Math.Word16Bytes | src/sensors/bme280.c:28 | the word determines both bytes and every 16-bit word arises from exactly one byte pair |
| Bme280Math.Signed16 | src/sensors/bme280.c:31-33 | `readS16` is the two's-complement reading of that word, negative iff the high byte is >= 0x80 |
| Bme280Math.Raw20 | src/sensors/bme280.c:38 | `b0 << 12 \| b1 << 4 \| b2 >> 4` is b0 * 4096 + b1 * 16 + b2 / 16 |
| Bme280Math.Raw20Fields | src/sensors/bme280.c:35-45 | the raw temperature or pressure is below 2^20 and gives back msb, lsb and the high nibble of xlsb |
| Bme280Math.Raw20Example | src/sensors/bme280.c:38 | bytes 0x7F, 0xE0, 0x00 give 0x7FE00 |
| Bme280Math.RawHum | src/sensors/bme280.c:50 | `b0 << 8 \| b1` is the big-endian word b0 * 256 + b1 |
| Bme280Math.RawHumBytes | src/sensors/bme280.c:47-51 | the raw humidity is below 2^16 and gives back both bytes |
| Bme280Math.DigH4 | src/sensors/bme280.c:97 | dig_H4 is e4 * 16 plus the low nibble of e5 |
| Bme280Math.DigH5 | src/sensors/bme280.c:98 | dig_H5 is e6 * 16 plus the high nibble of e5 |
| Bme280Math.DigH45Fields | src/sensors/bme280.c:92-99 | both are non-negative 12-bit values that together hold e4, e6 and both nibbles of e5 |
| Bme280Math.StandbyConfig | src/sensors/bme280.c:117-125 | defines the config byte chosen for ms: 0x40, 0x60, 0x80, otherwise 0xA0 |
| Bme280Math.StandbyConfigMeaning | src/sensors/bme280.c:117-125 | the config byte selects exactly 125, 250 or 500 ms when asked for those, and 1000 ms for every other value; filter and SPI bits are 0 |
| Bme280Math.TFine | src/sensors/bme280.c:134-141 | defines t_fine from the raw temperature and the calibration, with the arithmetic shifts as floor divisions |
| Bme280Math.TempCenti | src/sensors/bme280.c:142 | the temperature in hundredths of a degree is `(t_fine * 5 + 128) / 256` rounded down |
| Bme280Math.TempCentiMonotone | src/sensors/bme280.c:142 | a larger t_fine never gives a lower temperature |
| Bme280Math.TemperatureExample | src/sensors/bme280.c:134-142 | the datasheet's worked example: raw 519888 gives t_fine 128422 and 25.08 degrees |
| Bme280Math.PressDenominator | src/sensors/bme280.c:154-159 | defines var1 of the pressure formula, the denominator that the zero guard tests |
| Bme280Math.PressureQ8 | src/sensors/bme280.c:160 | the guard against division by zero: the pressure is 0 whenever the denominator var1 is 0 |
| Bme280Math.PressureExample | src/sensors/bme280.c:151-165 | a worked example: raw 415148 at t_fine 128422 gives 25767233 (100653.25 Pa in Q24.8) |
| Bme280Math.HumRaw | src/sensors/bme280.c:178-186 | defines the humidity intermediate before the clamp |
| Bme280Math.HumClamped | src/sensors/bme280.c:187-188 | the humidity intermediate is clamped to 0..419430400, and kept when it is already inside |
| Bme280Math.HumidityQ10 | src/sensors/bme280.c:189 | the Q22.10 humidity returned lies in 0..100 %RH |
| Bme280.InitPlan | src/sensors/bme280.c:60-109 | defines the calls of `BME280_init` in source order: the temperature, pressure and humidity calibration reads, then the two configuration writes |
| Bme280.CalibrationOf | src/sensors/bme280.c:60-105 | defines the compensation parameters a register image holds, with the driver's assembly of dig_H4 and dig_H5 (unsigned) and the int8 dig_H6 |
| Bme280.TempCalCalls | src/sensors/bme280.c:62-64 | the temperature section is the three 2-byte reads at 0x88, 0x8A and 0x8C, in order, before the rest |
| Bme280.PressCalCalls | src/sensors/bme280.c:67-75 | the pressure section is the nine 2-byte reads at 0x8E..0x9E, in order, before the rest |
| Bme280.HumCalCalls | src/sensors/bme280.c:78-105 | the humidity section reads 0xA1, the word at 0xE1, then 0xE3, 0xE4, 0xE5, 0xE6 and 0xE7 one byte each, in source order |
| Bme280.InitPlanShape | src/sensors/bme280.c:60-110 | `BME280_init` makes 19 calibration reads, then writes ctrl_hum 0xF2 := 0x01 and then ctrl_meas 0xF4 := 0x27 |
| Bme280.Read16 | src/sensors/bme280.c:25-29 | one 2-byte `read_regs` at reg; on success the little-endian word of the two bytes read |
| Bme280.ReadS16 | src/sensors/bme280.c:31-33 | the same read; on success its signed reading |
| Bme280.ReadByte | src/sensors/bme280.c:80-81 | one `read_reg` at reg; on success the byte read |
| Bme280.ReadRaw20 | src/sensors/bme280.c:35-45 | one 3-byte read; on success the 20-bit raw value of the bytes read |
| Bme280.ReadRawHum | src/sensors/bme280.c:47-51 | one 2-byte read at 0xFD; on success the big-endian raw humidity |
| Bme280.InitRead16 | src/sensors/bme280.c:62 | the next unsigned calibration read of the plan; when reads deliver the image `regs`, the word at reg, reg+1 |
| Bme280.InitReadS16 | src/sensors/bme280.c:63-75 | the next signed calibration read; the signed word of the image |
| Bme280.InitReadByte | src/sensors/bme280.c:80-81 | the next one-byte calibration read; the image's byte |
| Bme280.InitWrite | src/sensors/bme280.c:108-109 | the next configuration write of the plan is issued, whatever its status |
| Bme280.ReadTempCal | src/sensors/bme280.c:62-64 | the reads at 0x88, 0x8A, 0x8C in order give dig_T1..dig_T3 of the image |
| Bme280.ReadPressCal | src/sensors/bme280.c:67-75 | the reads at 0x8E..0x9E in order give dig_P1..dig_P9 of the image |
| Bme280.ReadHumCal | src/sensors/bme280.c:78-105 | the reads at 0xA1, 0xE1, 0xE3..0xE7 in order give dig_H1..dig_H6, with H4 and H5 from the nibbles of 0xE5 and H6 a signed byte |
| Bme280.WriteConfig | src/sensors/bme280.c:108-109 | the two configuration writes complete the plan |
| Bme280.SetSampling | src/sensors/bme280.c:117-126 | exactly one `write_reg` of 0xF5 with the standby code for ms |
| Bme280.Sensor.constructor | src/sensors/bme280.c:8-20 | the static calibration and t_fine start at zero |
| Bme280.Sensor.Init | src/sensors/bme280.c:60-110 | the bus trace is that of the init plan's calls in order, whatever they return; when every read delivers an image's registers, the calibration is the datasheet's register map of that image as the driver assembles it (dig_H4 and dig_H5 unsigned) |
| Bme280.Sensor.ReadTemperature | src/sensors/bme280.c:134-143 | one 3-byte read at 0xFA; on success t_fine is the compensation of the raw value; the result is the temperature t_fine stands for |
| Bme280.Sensor.ReadPressure | src/sensors/bme280.c:151-167 | one 3-byte read at 0xF7; on success the compensated pressure at the current t_fine; 0 when the denominator is 0 |
| Bme280.Sensor.ReadHumidity | src/sensors/bme280.c:175-190 | one 2-byte read at 0xFD; on success the compensated humidity at the current t_fine; always within 0..100 %RH |
| Proxy.Lower | src/proxy/proxy.c:16 | 'A'..'Z' map to 'a'..'z' and every other character is kept |
| Proxy.StrToLower | src/proxy/proxy.c:14-18 | in place, the C string is lower-cased and the NUL and everything after it is untouched |
| Proxy.LoweredFacts | src/proxy/proxy.c:14-18 | lower-casing keeps the buffer and string length and changes only upper-case letters; no upper-case letter is left, and applying it twice is the same as once |
| Proxy.RunLen | src/proxy/proxy.c:63 | a token runs up to the first delimiter |
| Proxy.Tokens | src/proxy/proxy.c:63-86 | defines the tokens `strtok_r` returns for the delimiters " \t,;:", in order |
| Proxy.TokensAreRuns | src/proxy/proxy.c:63-86 | the tokens are non-empty and delimiter-free, and together hold exactly the line's non-delimiter characters in order |
| Proxy.TokensSplit | src/proxy/proxy.c:63-86 | a delimiter always separates tokens: the tokens of a + [d] + b are those of a followed by those of b |
| Proxy.TokensRun | src/proxy/proxy.c:63-86 | a non-empty run without delimiters is one token, so tokens are maximal runs |
| Proxy.TokenAt | src/proxy/proxy.c:63-86 | a maximal run starting at i is the first token from i, and the scan resumes after the delimiter that ends it |
| Proxy.NextToken | src/proxy/proxy.c:86 | one `strtok_r` call returns the next token of the remaining line, or reports that none is left |
| Proxy.Word | src/proxy/proxy.c:66-68 | the compared word is the token cut to 31 characters and lower-cased |
| Proxy.WordOfBuf | src/proxy/proxy.c:65-68 | the C string in the 32-byte `word` after `strncpy`, the terminator and `str_to_lower` is that word |
| Proxy.LowerWord | src/proxy/proxy.c:65-68 | the in-place steps give exactly that word |
| Proxy.WordIgnoresCase | src/proxy/proxy.c:68-85 | tokens that differ only in letter case compare alike; a token longer than 31 matches no command |
| Proxy.Scan | src/proxy/proxy.c:64-87 | the token loop never re-prompts; reads carry 1..3 requests extending those already held; with requests held it either quits or reads |
| Proxy.QuitIndex | src/proxy/proxy.c:82-84 | the position of the first q/quit token: every earlier token is not a quit word |
| Proxy.ScanMeaning | src/proxy/proxy.c:64-94 | the loop's outcome is the first 3 requests named before any quit word; otherwise a quit when a quit word comes first, or "no valid command" |
| Proxy.Interpret | src/proxy/proxy.c:46-94 | defines the outcome of one line: empty re-prompts, a lone q or Q quits, otherwise the token loop decides |
| Proxy.InterpretMeaning | src/proxy/proxy.c:46-94 | an empty line re-prompts; any other line means what its tokens mean |
| Proxy.QuickExitAgrees | src/proxy/proxy.c:52-55 | the quick exit on "q"/"Q" agrees with what the token loop would do |
| Proxy.Classify | src/proxy/proxy.c:71-85 | defines what a compared word means: "read" is skipped; temp, press and hum (short or long) are requests; q or quit quits; any other word is ignored |
| Proxy.Record | src/proxy/proxy.c:71-85 | a request word adds its request after those held; q/quit is reported; "read" and other words add nothing |
| Proxy.ParseLine | src/proxy/proxy.c:46-94 | the line's handling up to the reads gives exactly the outcome `Interpret` defines |
| Proxy.ReadPlanCounts | src/proxy/proxy.c:98-124 | a round reads the temperature exactly once, first; each pressure and humidity request causes exactly one read of its own |
| Proxy.Answer | src/proxy/proxy.c:104-123 | one request is answered: temperature from the cached value, pressure and humidity by one new read |
| Proxy.Serve | src/proxy/proxy.c:98-124 | the bus trace is the temperature read, then the requests' reads in order; one value per request, and every temperature request gets the cached temperature |
| Proxy.Session | src/proxy/proxy.c:41-126 | defines the calls issued for a sequence of lines, up to the first line that quits |
| Proxy.SessionStep | src/proxy/proxy.c:41-126 | a quitting line ends the session; a reading line's reads come before the later lines'; empty and invalid lines add nothing |
| Proxy.Run | src/proxy/proxy.c:29-127 | lines are handled in order up to and including the first that quits; the bus trace is the reads that the lines before it ask for |
| Oled.Pages | src/display/oled.c:43-50 | the pages from p on take 131 bytes each |
| Oled.ClearStream | src/display/oled.c:42-51 | `oled_clear` sends 1048 bytes: 8 pages of 131 |
| Oled.ClearSuffix | src/display/oled.c:43-50 | the pages from p on start at byte 131p of the clear stream |
| Oled.ClearAt | src/display/oled.c:43-49 | byte j of page p is header byte j for j < 3 and a zero data byte after that |
| Oled.ClearPage | src/display/oled.c:43-50 | page p is cleared with 0xB0+p, 0x02, 0x10 and then 128 zero data bytes, at offset 131p |
| Oled.CommandsPages | src/display/oled.c:43-50 | the pages from p on hold 3 commands per page |
| Oled.ClearCounts | src/display/oled.c:42-51 | `oled_clear` sends 24 commands and 1024 data bytes |
| Oled.ConfigPlan | src/display/oled.c:22-36 | defines the 23 command writes of `oled_init`, in order |
| Oled.ConfigShape | src/display/oled.c:22-36 | the configuration is 23 command writes that begin with 0xAE (display off) and end with 0xAF (display on) |
| Oled.Printable | src/display/oled.c:63 | printable ASCII is kept and every other character becomes '?' |
| Oled.GlyphAt | src/display/oled.c:64 | the glyph offset `(c - 32) * 5` is a multiple of 5 and leaves room for 5 bytes in the 475-byte font |
| Oled.Glyph | src/display/oled.c:64-68 | each character is drawn as 6 bytes |
| Oled.Glyphs | src/display/oled.c:61-69 | defines the bytes the character loop draws for a C string: one glyph per character up to the NUL |
| Oled.LineStream | src/display/oled.c:54-69 | defines the bytes of `oled_print_line`: none for a line above 7, otherwise the page header followed by the glyphs |
| Oled.GlyphsLength | src/display/oled.c:61-69 | a text draws 6 bytes per character of its C string |
| Oled.GlyphsChar | src/display/oled.c:61-69 | character k is drawn at bytes 6k..6k+5 |
| Oled.LineShape | src/display/oled.c:57-69 | a visible line is its three page-selection commands followed by one 6-byte glyph per character of its C string, character k at offset 3 + 6k |
| Oled.Command | src/display/oled.c:10-12 | exactly the `write_reg(0x3C, 0x00, c)` call |
| Oled.Data | src/display/oled.c:14-16 | exactly the `write_reg(0x3C, 0x40, d)` call |
| Oled.BlankPage | src/display/oled.c:44-49 | one iteration of the page loop sends exactly that page's header and 128 zero columns |
| Oled.Clear | src/display/oled.c:42-51 | the bus trace is that of sending the clear stream, byte by byte |
| Oled.Configure | src/display/oled.c:22-36 | the bus trace is that of the configuration commands in order |
| Oled.Init | src/display/oled.c:19-39 | the configuration commands, then the clear stream |
| Oled.SelectPage | src/display/oled.c:57-59 | the three page-selection commands are sent |
| Oled.PrintChar | src/display/oled.c:62-68 | one character's 5 glyph bytes, with '?' for unprintable ones, then the zero spacer |
| Oled.PrintText | src/display/oled.c:61-69 | the character loop sends exactly the glyph stream of the C string |
| Oled.PrintLine | src/display/oled.c:54-69 | nothing for a line above 7; otherwise exactly the line's stream |
| Scanner.ProbeTrace | src/main.c:14-19 | defines the bus primitives of the scan: START(addr, W) then STOP for each address from a up to 126 |
| Scanner.Found | src/main.c:14-19 | defines the reported addresses: those from a up to 126 whose START status was 0x18 or 0x40 |
| Scanner.Probe | src/main.c:15-19 | one START(addr, W) and one STOP; addr is reported iff the start status is 0x18 or 0x40 |
| Scanner.Scan | src/main.c:9-21 | TWI set-up, then the probes of 1..126 in order; reported are the addresses that answered |
| Scanner.ProbeTraceAt | src/main.c:14-19 | from address a on, probe x is START with address x at position 2(x-a), followed at once by STOP; there are 2(127-a) primitives, 252 for the whole scan |
| Scanner.ProbeAddress | src/main.c:15 | no probed address is truncated in its SLA byte |
| Scanner.FoundIff | src/main.c:14-18 | x is reported iff 1 <= x <= 126 and its probe answered 0x18 or 0x40 |
| Scanner.FoundRange | src/main.c:14-17 | every reported address lies in 1..126 |
| Scanner.FoundIncreasing | src/main.c:14-18 | the reported addresses are strictly increasing, so each appears once |

## Left out

- `client/client.c` and `client/client.h`: host-side serial plumbing over POSIX calls.
- `src/buttons/`: raw pin reads with a debounce delay.
- The headers, which are declarations only. Some of their names do not match the definitions:
  - `uart.h` declares `usart_*` and `printf_init` while `uart.c` defines `UART_*`;
  - `bme280.h` and `proxy.c` use `bme280_*` while `bme280.c` defines `BME280_*`;
  - `proxy.c` calls `uart_readline`, which no file defines.

  The model follows the definitions. The proxy's lower-case sensor calls are modelled by `Bme280.Sensor`. The display and the scanner use the lower-case TWI copy `I2cLower`, as their calls of `i2c_init` and `i2c_write_reg` do. So does the source's `proxy_init`, whose `i2c_init` call is the same `I2cLower.Init`.
- `uart_readline` and `printf_init` are not part of this model. The proxy takes its lines as input. The model accepts lines of any length without a NUL: a superset of the lines of at most 127 characters that `char line[128]` can hold. `printf`, `dtostrf` and every printed banner are left out.
- The float results of the BME280 readings (`/ 100.0f`, `/ 25600.0f`, `/ 1024.0f`). The model returns the integers the source converts: hundredths of a degree, Q24.8 Pa and Q22.10 %RH.
- `UART_init`, `sei()` and the register-level TWI access (TWCR/TWDR polling) are replaced by the class state and `TwiHw.Twi.Transfer`. So are the delays (`_delay_us`, `_delay_ms`) and the final `while (1)` of `main`.
- True concurrency between the interrupt handlers and the main program (volatile accesses, interleavings). The handlers are methods the environment calls between main-context operations.
- F_CPU is fixed at 16 MHz. The buffer sizes `UART_RX_BUF_SIZE` and `UART_TX_BUF_SIZE` are constructor parameters in 2..256.
- The 5x7 font table (`font/font.h` is not part of this model) is a parameter of `Oled.PrintLine` of the table's size, 475 bytes.
- `proxy_init` is only a sequence of the set-up calls above.
- Uart.Usart.PutString: requires the whole string to fit in the transmit queue. The source instead waits in `UART_putChar` for the interrupt to drain the queue, and the model's handlers cannot run inside a method.
- Uart.Usart.GetString: requires the bytes of the line to be queued already. The source waits in `UART_getChar` for them to arrive.
- Uart.Usart.PutChar and Uart.Usart.GetChar: the busy-waits are preconditions (not full, not empty).
- TwiSpec.WriteThenRead: the write-then-read round trip holds only for a device that returns the stored value (`TwiSpec.StoresWrite`). The bus oracle is indexed by trace position and holds no register memory, so what a device keeps is an assumption. What the driver contributes, the framing of both calls, is proved.
- I2c.ReadRegs and I2cLower.ReadRegs: require len >= 1. With len 0 the source writes `buf[-1]`, which is out of bounds.
- Bme280.Read16, Bme280.ReadS16, Bme280.ReadByte, Bme280.ReadRaw20 and Bme280.ReadRawHum: promise nothing about the value after a failed transfer. The source then reads an uninitialised local buffer.
- Bme280.Sensor.Init: states the calibration only for a bus whose reads all succeed and deliver one register image. After a failed read the source stores uninitialised bytes.
- Bme280Math.PressureQ8, Bme280Math.HumidityQ10 and Bme280.Sensor.ReadTemperature: compute with unbounded integers. They do not model a wrap-around of the source's `int32_t` and `int64_t` intermediates. The Bosch formulas are sized so that sensor-range inputs do not overflow.
- Proxy.Serve: states the bus trace and the temperature values. It does not restate the pressure and humidity values, which `Bme280.Sensor.ReadPressure` and `Bme280.Sensor.ReadHumidity` state.
- Proxy.Run: stops when the given lines run out. The source would wait for more input forever.
- Proxy.ParseLine: takes a line without NUL characters. In the source a NUL ends the C string that `uart_readline` returns.
- TwiSpec.WriteRegZeroStatus and TwiSpec.BusErrorReadsAsSuccess: document the source's behaviour as written. A helper whose first unexpected status is 0x00 (TWI bus error) returns 0, the code that otherwise means success. The model keeps that behaviour and carries the real outcome in `Txn.ok`.
- Scanner.Scan: returns the reported addresses instead of printing them. The UART set-up and banners are left out.
