# ITG-3200 gyroscope driver, modelled in Dafny

This project models `GyroITG3200`, the Breakout driver for the ITG-3200
three-axis gyroscope on an I2C bus. The driver does four things:

- It configures the sensor on construction and announces readiness after a startup delay.
- It switches between one-shot and continuous reading.
- It decodes reply frames of big-endian two's-complement axis values.
- It applies per-axis polarity, gain and offset when the readings are read.

Modules:

- `Wrappers`: `Option` (an argument left `undefined`), `Result` and `Outcome` (an operation that throws).
- `Bits`: JavaScript's `<<`, `>>`, `|` and `^` on non-negative integers.
  - `<<` is multiplication by a power of two.
  - `>>` drops one low bit at a time.
  - `|` and `^` combine their operands bit by bit.
  - Lemmas give the arithmetic value of `>>`, `|` and `^` on the operands the decoder uses.
- `Protocol`: register constants, the requests sent to the I2C transport (`I2CRequest`), and the events (`GyroEvent`).
- `FrameDecoder`: byte combining, sign extension and frame decoding as functions.
  - `Combine` and `SignExtend` are proved equal to their arithmetic closed forms.
  - `Decode16` and `DecodeFrame` each have an inverse, the encoding the sensor uses (`Encode16`, `EncodeFrame`).
  - Round-trip lemmas connect each decoder and its encoder in both directions.
- `Calibration`: the calibrated reading `raw / 14.375 * polarity * gain + offset`, over `real`.
- `ITG3200`: the class `GyroITG3200`.
  - `sendI2CRequest` appends to the field `commands`.
  - `dispatchEvent` appends to the field `events`.
  - The startup timer is the field `timerPending`. The timer firing is a call of `OnGyroReady`.
  - `Valid()` keeps five things true:
    - polarities are ±1;
    - raw values are 16-bit signed;
    - the request log starts with the four configuration writes;
    - the reading flag is on exactly when the last READ_CONTINUOUS or STOP_READING in the log is a READ_CONTINUOUS;
    - READY is dispatched exactly once, counting a pending timer as the READY still to come.
- `Scenarios`: client call sequences with the requests and events they produce.

Frames are sequences of integers in 0..255. In JavaScript, reading `data[0]` of an empty
frame gives `undefined`, which matches no register. So an empty frame is ignored like any
unknown register and is not treated as an error.

Three behaviours of the code worth stating:

- `startReading` has no guard against being called before the READY event.
  So streaming can begin before readiness.
- A frame with an unknown register goes to `debug`. That prints only when debugging is
  enabled, and it changes no state.
- `readGyro` does not look at the register byte. Only `handleI2C` dispatches on it.

## Model

| member | source | states |
|---|---|---|
| Bits.OrDisjoint | Breakout/src/io/GyroITG3200.js:320-322 | or-ing a byte into a value shifted left by 8 equals adding it: the bits do not overlap |
| Bits.ShiftRightZero | Breakout/src/io/GyroITG3200.js:324 | `v >> 15` is non-zero exactly when v is at least 2^15, that is when bit 15 of a 16-bit value is set |
| Bits.XorAllOnes | Breakout/src/io/GyroITG3200.js:325 | xor with 0xFFFF complements a 16-bit value (65535 - v) |
| FrameDecoder.Combine | Breakout/src/io/GyroITG3200.js:320-322 | `(hi << 8) \| lo` is hi*256 + lo and stays below 65536 |
| FrameDecoder.SignExtend | Breakout/src/io/GyroITG3200.js:324-338 | the `>> 15` test and `((v ^ 0xFFFF) + 1) * -1` give v - 65536 when bit 15 is set and v otherwise, always in [-32768, 32767] |
| FrameDecoder.Decode16 | Breakout/src/io/GyroITG3200.js:320-338 | an axis value is the two's-complement reading of hi*256 + lo, in [-32768, 32767] |
| FrameDecoder.DecodeEncode | Breakout/src/io/GyroITG3200.js:320-338 | decoding the two's-complement bytes of any 16-bit signed value gives it back |
| FrameDecoder.EncodeDecode | Breakout/src/io/GyroITG3200.js:320-338 | every byte pair is the encoding of its decoded value, so decoding is a bijection |
| FrameDecoder.DecodeLandmarks | Breakout/src/io/GyroITG3200.js:324-338 | 0x0000 gives 0, 0x7FFF gives 32767, 0x8000 gives -32768, 0xFFFF gives -1 |
| FrameDecoder.DecodeFrame | Breakout/src/io/GyroITG3200.js:316-338 | a frame decodes iff its length is 7; otherwise the error carries the length; decoded axes are 16-bit signed |
| FrameDecoder.FrameDecodeEncode | Breakout/src/io/GyroITG3200.js:316-338 | a frame carrying the encoding of any three 16-bit values decodes to exactly those values |
| FrameDecoder.FrameEncodeDecode | Breakout/src/io/GyroITG3200.js:316-338 | every 7-byte frame is its register byte followed by the encoding of what it decodes to |
| Protocol.WritesDoNotStream | Breakout/src/io/GyroITG3200.js:243-256 | a request log made only of register writes, such as the configuration writes, never puts the transport into continuous reading |
| Protocol.CountAppend | Breakout/src/io/GyroITG3200.js:268 | dispatching one event raises the count of that event kind by one and leaves the others |
| Calibration.Polarity | Breakout/src/io/GyroITG3200.js:172-174 | a reversal flag maps to -1, no flag to +1 |
| Calibration.OffsetAppliedLast | Breakout/src/io/GyroITG3200.js:91 | the offset is added after scaling and is not scaled by polarity or gain |
| Calibration.IdentityCalibration | Breakout/src/io/GyroITG3200.js:91 | with gain 1, polarity +1 and offset 0 the reading is raw / 14.375 |
| Calibration.ReversedPolarityNegates | Breakout/src/io/GyroITG3200.js:91 | reversing the polarity negates the reading apart from the offset |
| Calibration.CalibrationInvertible | Breakout/src/io/GyroITG3200.js:91 | with non-zero gain the raw value is recovered from the calibrated reading |
| ITG3200.ResolveAddress | Breakout/src/io/GyroITG3200.js:52 | a missing or zero address becomes 0x69; any other address is kept |
| ITG3200.ResolveAutoStart | Breakout/src/io/GyroITG3200.js:49-51 | autoStart is true when left undefined and the given value otherwise |
| ITG3200.InitCommands | Breakout/src/io/GyroITG3200.js:243-256 | exactly four writes, all to the driver's address |
| ITG3200.GyroITG3200.constructor | Breakout/src/io/GyroITG3200.js:47-77 | defaults: not reading, timer pending, raw values 0, polarities +1, gains 1, offsets 0; the four configuration writes in order (0x15←0x00, 0x16←0x18, 0x3E←0x00, 0x17←0x05), no event |
| ITG3200.GyroITG3200.SetRevPolarity | Breakout/src/io/GyroITG3200.js:171-175 | each polarity becomes -1 if its flag is set and +1 otherwise; nothing else changes |
| ITG3200.GyroITG3200.SetOffsets | Breakout/src/io/GyroITG3200.js:185-189 | all three offsets are replaced; nothing else changes |
| ITG3200.GyroITG3200.SetGains | Breakout/src/io/GyroITG3200.js:199-203 | all three gains are replaced; nothing else changes |
| ITG3200.GyroITG3200.IsRunning | Breakout/src/io/GyroITG3200.js:150-160 | true exactly when the last READ_CONTINUOUS or STOP_READING sent to the transport is a READ_CONTINUOUS, that is while continuous read mode is enabled |
| ITG3200.GyroITG3200.X | Breakout/src/io/GyroITG3200.js:89-93 | under the default calibration the x reading is raw x / 14.375 |
| ITG3200.GyroITG3200.Y | Breakout/src/io/GyroITG3200.js:100-104 | under the default calibration the y reading is raw y / 14.375 |
| ITG3200.GyroITG3200.Z | Breakout/src/io/GyroITG3200.js:111-115 | under the default calibration the z reading is raw z / 14.375 |
| ITG3200.GyroITG3200.StartReading | Breakout/src/io/GyroITG3200.js:209-214 | afterwards reading is on; exactly one READ_CONTINUOUS [addr, 0x1D, 6] is sent iff it was off, none otherwise |
| ITG3200.GyroITG3200.StopReading | Breakout/src/io/GyroITG3200.js:220-223 | afterwards reading is off and exactly one STOP_READING [addr] is sent, even when already idle |
| ITG3200.GyroITG3200.Update | Breakout/src/io/GyroITG3200.js:230-237 | STOP_READING then READ [addr, 0x1D, 6] while streaming, only the READ while idle; reading is off afterwards |
| ITG3200.GyroITG3200.Init | Breakout/src/io/GyroITG3200.js:243-259 | appends the four configuration writes in order and sets the startup timer |
| ITG3200.GyroITG3200.OnGyroReady | Breakout/src/io/GyroITG3200.js:265-272 | clears the timer, dispatches READY (now exactly once in the log), and starts reading iff autoStart |
| ITG3200.GyroITG3200.HandleI2C | Breakout/src/io/GyroITG3200.js:294-304 | a frame led by 0x1D is decoded as by ReadGyro; any other frame (the empty one included) changes no field, sends nothing and dispatches nothing |
| ITG3200.GyroITG3200.ReadGyro | Breakout/src/io/GyroITG3200.js:310-341 | a 7-byte frame sets x, y, z to its decoded values and dispatches UPDATE; any other length fails with the length and changes nothing |
| Scenarios.Startup | Breakout/src/io/GyroITG3200.js:243-272 | construction sends the four writes; after the timer fires READY is dispatched once and one READ_CONTINUOUS follows iff autoStart |
| Scenarios.StartTwiceThenUpdate | Breakout/src/io/GyroITG3200.js:209-237 | two starts send one READ_CONTINUOUS; update then sends STOP_READING and READ and leaves reading off |
| Scenarios.ShortFrameRejected | Breakout/src/io/GyroITG3200.js:316-317 | a 5-byte GYRO_XOUT frame fails with its length and leaves the raw values and the event log unchanged |

## Left out

- The I2CBase transport, `JSUTILS.inherit` and the namespace set-up are not modelled. A request is the record appended to `commands`.
- `setTimeout` and real time (STARTUP_DELAY, 70 ms) are left out. The pending timer is a flag, and `OnGyroReady` requires it to be set, because the timer fires once.
- `dispatchEvent` and the `GyroEvent` objects are reduced to the event kinds appended to `events`. Listeners are not modelled.
- `debug` and `console.log` (and the `_debugMode` flag) have no effect on the driver's state, so they are not modelled.
- `rawX`, `rawY` and `rawZ` are not modelled. They read `_rawX`, `_rawY` and `_rawZ`, which the driver never assigns, so they always give `undefined`. The decoded raw values are the fields `x`, `y` and `z`.
- `setRegisterBit` is not modelled. It is never called, and it applies `|=` and `&=` to an uninitialised variable.
- `_tempOffsets` and `name` are assigned and never used.
- ITG3200.GyroITG3200.X: gains, offsets and readings are `real`, not IEEE doubles, so no rounding is modelled. The contract states only the default-calibration value; the order of the operations is stated by the Calibration lemmas.
- ITG3200.GyroITG3200.Y: as for X.
- ITG3200.GyroITG3200.Z: as for X.
- ITG3200.ResolveAutoStart: an explicit non-boolean `autoStart` (`null`, `0`, a string) is modelled only through its truth value, as `Some(false)` or `Some(true)`.
- ITG3200.ResolveAddress: JavaScript's other falsy addresses (`null`, `NaN`, `""`, `false`) are not modelled. The address is an optional integer, and 0 stands for falsy.
- The setters always take three real values. In JavaScript a call with arguments missing, such as `setOffsets(1)`, stores `undefined` for the missing axes, and their calibrated readings become NaN. That case is not modelled.
- Frame bytes are integers in 0..255, as the transport delivers them. Other array contents are not modelled.
- Concurrency is not modelled: the driver runs on a single thread and every callback is a sequential method call.
