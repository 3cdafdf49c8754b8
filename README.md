# HomeSpan addressable-LED drivers, modelled in Dafny

This project models the two LED drivers in HomeSpan's `Pixel.cpp`.

- **`Pixel`** is the single-wire driver for NeoPixel-style strips.
  - Its constructor parses the `pixelType` string into a remap table of up to five entries. It accepts the string only when it has three to five characters, all in `RGBWC01234-` (case-insensitive).
  - `setTiming` turns four pulse durations into 80 MHz tick counts and records the reset delay.
  - `set` remaps each colour's bytes into a two-slot ping/pong buffer. Before every submission it waits for the RMT channel to go idle. At the end it waits once more and then delays for the reset time.
- **`Dot`** is the two-wire driver for DotStar-style strips.
  - Its constructor derives a bit mask and a bank register for each pin.
  - `set` bit-bangs the strip:
    1. a start frame of 31 clock pulses with data low;
    2. the 32 bits of each colour value, most significant first;
    3. an end frame of 31 clock pulses with data low.

Files:

- `common.dfy` (module `Common`): shared types, the colour record, and two small sequence lemmas.
- `pixel_type.dfy` (module `PixelType`): the meaning of a pixelType string.
  - `IndexOf` models the `strchrnul` search.
  - `ParseMap` is the table the parse leaves behind.
  - `Accepted` says which strings the constructor takes.
- `single_wire.dfy` (module `SingleWire`): class `Pixel`. Its staging steps and its calls on the RMT channel are a ghost log of `RmtEvent`s:
  - `Fill(slot)`, the remap of a colour into one ping/pong slot;
  - `WaitAllDone`;
  - `Transmit(slot, bytes, enc)`, the submission of a slot through the encoder configuration `enc`;
  - `Delay(us)`.

  `Transmission` is the exact log one call of `set` produces, and the lemmas beside it state that log's shape.
- `two_wire.dfy` (module `TwoWire`): class `Dot`.
  - Its register stores are a ghost log of `RegWrite(register, mask)`.
  - `Run` gives what those stores do to the data and clock lines.
  - `Samples` gives the data levels a receiver latches on the rising clock edges.
  - `DotSignal` proves what a strip receives from one `set`.

## Model

| member | source | states |
|---|---|---|
| PixelType.IndexOfFirst | src/src/extras/Pixel.cpp:70 | the search stops at the first occurrence of the character, and reaches the terminator only when the character is absent |
| PixelType.SearchMeaning | src/src/extras/Pixel.cpp:67-73 | the search for the upper-cased character reaches position 11 exactly when the character is unknown; the position it stops at, mod 5, is the character's table entry ('-' gives 0, unknown gives 1) |
| PixelType.KnownIffListed | src/src/extras/Pixel.cpp:67-71 | a character counts as known exactly when its upper-case form occurs in "RGBWC01234-" |
| PixelType.UnknownAmong | src/src/extras/Pixel.cpp:66-72 | the flag accumulated over the first n characters is true exactly when one of them is unknown |
| PixelType.RejectionTest | src/src/extras/Pixel.cpp:76-79 | the rejection test (fewer than 3 parsed, length over 5, or an unknown character) is true exactly for strings that are not accepted |
| PixelType.GrbLayout | src/src/extras/Pixel.cpp:64-74 | "GRB" is accepted with table [1, 0, 2] |
| PixelType.LowerCaseRgbwLayout | src/src/extras/Pixel.cpp:70 | lower-case "rgbw" is accepted and gives the same table as "RGBW" |
| PixelType.FiveByteLayout | src/src/extras/Pixel.cpp:69-76 | a five-character string is accepted, and '-' stands for slot 0 |
| PixelType.UnknownCharacter | src/src/extras/Pixel.cpp:71-76 | an unknown character is stored as slot 1 and makes the string rejected |
| PixelType.LongStringRejected | src/src/extras/Pixel.cpp:69-76 | only five characters are parsed, but a six-character string is rejected |
| SingleWire.Pixel.constructor | src/src/extras/Pixel.cpp:38-96 | an invalid pin or a missing channel returns before parsing, leaving the driver disabled; otherwise the table holds min(len, 5) entries equal to ParseMap; channel is set iff the string is accepted, and an enabled driver has the default encoder and a reset time of 80 |
| SingleWire.Pixel.ParsePixelType | src/src/extras/Pixel.cpp:64-74 | the loop parses min(len, 5) characters, leaves map[..bytesPerPixel] == ParseMap(pixelType) with every entry below 5, and reports an unknown character exactly when one was parsed |
| SingleWire.Ticks | src/src/extras/Pixel.cpp:108-115 | the tick count lies within half a tick of d * 80 |
| SingleWire.TicksNearest | src/src/extras/Pixel.cpp:108-115 | no whole number of ticks is closer to d * 80 than the computed count |
| SingleWire.DefaultTiming | src/src/extras/Pixel.cpp:93 | the default timing 0.32/0.88/0.64/0.56 µs becomes 26/70 ticks for a 0 bit and 51/45 for a 1 bit, high then low, MSB first |
| SingleWire.Pixel.SetTiming | src/src/extras/Pixel.cpp:100-123 | a disabled driver is unchanged; an enabled one gets both bit symbols (level 1 for Ticks(high), then level 0 for Ticks(low)), MSB first, and resetTime = lowReset; it returns this |
| SingleWire.RetimeTwice | src/src/extras/Pixel.cpp:100-123 | two identical setTiming calls leave the state one call leaves |
| SingleWire.Pixel.Stage | src/src/extras/Pixel.cpp:138-139 | slot's row holds the colour's bytes in map order, and every other row of the buffer is unchanged |
| SingleWire.Pixel.Send | src/src/extras/Pixel.cpp:138-142 | one loop pass logs the fill of the slot, a wait, and the submission of the slot holding the remapped colour through the driver's current encoder; the other slot's bytes are unchanged |
| SingleWire.Pixel.Set | src/src/extras/Pixel.cpp:127-150 | a disabled driver logs nothing; an enabled one grows the log by exactly Transmission(...) with its current encoder and resetTime: nothing when nPixels == 0; otherwise a fill, a wait and a submission through that encoder per pixel, then a wait and the reset delay |
| SingleWire.EverySubmissionUsesEncoder | src/src/extras/Pixel.cpp:142 | every submission set makes goes through the encoder configuration in force |
| SingleWire.TimingTellsApart | src/src/extras/Pixel.cpp:100-150 | a set that sends at least one pixel sends the same events under two encoder configurations exactly when the configurations are equal |
| SingleWire.RetimeThenSet | src/src/extras/Pixel.cpp:100-150 | setTiming followed by set sends every pixel through Encoder(high0, low0, high1, low1) and ends with a delay of lowReset on an enabled driver; a disabled one logs nothing |
| SingleWire.SubmissionsLength | src/src/extras/Pixel.cpp:137-146 | three events per pixel, exactly one of them a submission |
| SingleWire.SubmissionsAt | src/src/extras/Pixel.cpp:138-144 | pixel k fills slot k % 2, waits, and submits slot k % 2 holding buffer k |
| SingleWire.TransmissionContents | src/src/extras/Pixel.cpp:127-150 | disabled or zero count gives no events; otherwise 3n + 2 events with n submissions, n being one pixel for a negative count and nPixels for a positive one (the do/while), pixel k being colour Pos(k, multiColor) remapped, filled into and sent from slot k % 2 after a wait; then a wait and the delay |
| SingleWire.WaitBeforeEverySubmission | src/src/extras/Pixel.cpp:141-142 | every submission directly follows a wait for the channel to go idle |
| SingleWire.FramedWaits | src/src/extras/Pixel.cpp:132-144 | in a log of this layout, a wait lies between every submission of a slot and any later fill of the same slot |
| SingleWire.NoFillWhileInFlight | src/src/extras/Pixel.cpp:132-144 | in what set sends, a slot is never refilled after its submission until the channel has been waited on, so a slot still being sent is not overwritten |
| SingleWire.SingleColorRepeated | src/src/extras/Pixel.cpp:145 | with multiColor false every pixel sent is the first colour |
| SingleWire.NegativeCountSendsOne | src/src/extras/Pixel.cpp:129-146 | a negative count sends exactly one pixel, then the final wait and delay |
| SingleWire.GrbScenario | src/src/extras/Pixel.cpp:64-150 | "GRB" with colour bytes 10, 20, 30 sends 20, 10, 30 from slot 0 through the given encoder |
| SingleWire.RgbwScenario | src/src/extras/Pixel.cpp:64-150 | "RGBW" with colour bytes 1, 2, 3, 4 sends them unchanged |
| TwoWire.MaskOf | src/src/extras/Pixel.cpp:163-164 | 1 << (pin % 32) has exactly bit pin % 32 set |
| TwoWire.MaskBits | src/src/extras/Pixel.cpp:163-164 | 1 << s has exactly bit s set |
| TwoWire.Dot.constructor | src/src/extras/Pixel.cpp:156-187 | for every chip: the masks are 1 << (pin % 32); each pin's set and clear pointers are those of the low bank iff the pin is below 32, and NULL exactly for a high-bank pin of an ESP32-C3; all four pointers exist iff the chip is not an ESP32-C3 or both pins are below 32, and then they drive the two pins |
| TwoWire.Dot.Strobe | src/src/extras/Pixel.cpp:195-196 | one clock set then one clock clear |
| TwoWire.Dot.Frame | src/src/extras/Pixel.cpp:193-197 | data cleared, then 31 clock pulses |
| TwoWire.Dot.SendBit | src/src/extras/Pixel.cpp:201-206 | data set for a 1 bit and cleared for a 0 bit, then a clock pulse |
| TwoWire.Dot.SendWord | src/src/extras/Pixel.cpp:200-207 | bits 31 down to 0 of the value, each sent as above |
| TwoWire.Dot.Set | src/src/extras/Pixel.cpp:191-216 | the stores are the start frame, the bits of the first max(nPixels, 0) colour values (colour Pos(i, multiColor) for pixel i), then the end frame |
| TwoWire.StoreEffects | src/src/extras/Pixel.cpp:193-206 | on distinct pins, a data store moves only the data line and a clock store only the clock line |
| TwoWire.PulseEffect | src/src/extras/Pixel.cpp:195-196 | a pulse from clock low latches the data level once and leaves the lines as they were |
| TwoWire.ZeroFrameEffect | src/src/extras/Pixel.cpp:193-197 | a frame latches 31 zeros and leaves both lines low |
| TwoWire.BitEffect | src/src/extras/Pixel.cpp:201-206 | one bit is latched as itself and the clock ends low |
| TwoWire.WordEffect | src/src/extras/Pixel.cpp:200-207 | a sequence of bits is latched exactly, in order |
| TwoWire.PixelsEffect | src/src/extras/Pixel.cpp:199-209 | the pixel loop latches every value's bits, MSB first, one value after the other |
| TwoWire.MsbAllAt | src/src/extras/Pixel.cpp:199-201 | latched position 32k + 31 - b holds bit b of pixel k's value |
| TwoWire.DotSignal | src/src/extras/Pixel.cpp:191-216 | a strip latches 31 zeros, every value's 32 bits MSB first, then 31 zeros: 62 + 32n pulses, and both lines end low |
| TwoWire.DotDrivesPins | src/src/extras/Pixel.cpp:156-216 | the stores of a driver built for two pins latch exactly the signal above on those pins |
| TwoWire.NoPixelsStillFrames | src/src/extras/Pixel.cpp:193-215 | with no pixels both frames still go out: 62 zero bits |
| TwoWire.DotSingleColor | src/src/extras/Pixel.cpp:208 | with multiColor false every pixel carries the first colour's value |
| TwoWire.ValueOne | src/src/extras/Pixel.cpp:200-201 | the value 1 goes out as 31 zeros followed by a one |

Code facts a reader might not expect:

- A pixelType of five characters is accepted, so `bytesPerPixel` can be 5, not only 3 or 4.
- `Dot::set` has no guard for a zero pixel count: it still sends both frames (`NoPixelsStillFrames`).
- A negative count makes `Pixel::set` send one pixel (`NegativeCountSendsOne`). It makes `Dot::set` send none.

## Left out

- The ESP-IDF RMT calls are not modelled as code. Their internals are not visible.
  - `rmt_tx_wait_all_done`, `rmt_transmit` and `delayMicroseconds` are the ghost log events. A `Transmit` event records the slot, its bytes and the encoder configuration it is sent with; the `tx_config` argument is a constant and is not recorded.
  - `rmt_new_tx_channel`, together with the channel number read at line 84, is the constructor parameter `newChannel`.
  - `rmt_enable`, `rmt_new_bytes_encoder` and `rmt_bytes_encoder_update_config` are the `encoder` field.
  - `rmt_ll_set_group_clock_src` is not modelled. It only reselects the clock source.
- The RMT channel and transmit configuration fields (lines 42-52, 86-88) are not modelled. They are constants passed to the hardware and carry no logic.
- `GPIO_IS_VALID_OUTPUT_GPIO` is not modelled. Its answer is the constructor parameter `pinIsOutput`.
- The constructor keeps the channel it gets even when it then rejects the pixelType. Channel ownership is not modelled.
- `sscanf(..., "%ms", &pType)` is not modelled. It is a heap copy of the string.
- `onColor.HSV` is not modelled. It is colour conversion defined in `Pixel.h`, which is not part of this model.
- `ESP_LOGE` diagnostics are not modelled.
- The pixelType is a Dafny string: the characters before the C terminator, each a Unicode character where `strlen` counts bytes. For a string with non-ASCII characters `bytesPerPixel` and the table differ from the C values. Such a string is rejected either way, because no non-ASCII character is in the alphabet.
- SingleWire.Ticks: durations must be at least 0. The C conversion to an unsigned tick count truncates a slightly negative product to 0 and is undefined below that; the only call in the file (line 93) passes positive values.
- SingleWire.Pixel.Stage: `Transmit` records the slot's bytes at the moment of submission. The hardware's later reading of the slot is not modelled. `NoFillWhileInFlight` orders the fills against the waits in its place.
- The relation between `Color.col` and `Color.val` (their overlap and endianness) is fixed by `Pixel.h`, which is not part of this model. The two views are independent fields here.
- `Pixel.h` also fixes the initial field values, which are modelled as follows:
  - `channel` starts at -1;
  - `bytesPerPixel` and `resetTime` start at 0;
  - the map has five entries;
  - each of the two ping/pong slots (`Color data[2]`) holds five bytes, since the size of `Color.col` comes from that header.
- SingleWire.Ticks: the computation uses exact reals rather than `float`, so single-precision rounding of `d*80 + 0.5` is not captured. The width of the RMT duration field is not captured either.
- SingleWire.Pixel.Set: `nPixels` is an unbounded integer, so the C `int` wrap of `--nPixels` at its minimum is not captured. The real time that waits and the reset delay take is not captured.
- SingleWire.Pixel.Set: the caller must provide a colour with enough bytes for every pixel read. The source relies on the same thing silently.
- `pinMode` and `digitalWrite` in `Dot::Dot` are not modelled. `DotSignal` instead starts from a clock line that is low, which is what those calls leave.
- TwoWire.Dot.Set: it requires all four register pointers to exist. On an ESP32-C3 a pin of 32 or above would store through NULL; that behaviour is undefined and not modelled.
- The per-chip `#if` register macros are not modelled as code. They are the `Chip` argument of the constructor.
- The pulse timing of the bit-banged lines is not modelled.
