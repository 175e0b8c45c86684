# APA102 LED-strip driver: pixel buffer and wire encoding

This project models the `APA102` class of a Raspberry Pi Pico driver for
APA102 LED strings (`apa102.cpp`, `apa102.h`) and proves properties of the
model in Dafny.

The driver keeps a pixel buffer of three bytes per LED (R, G, B), allocated
zero-filled with `calloc` and degraded to zero LEDs when the allocation fails.
Two `setPixelColor` overloads write one LED under a bounds guard,
`getPixelColor` packs an LED back into `0x00RRGGBB`, and `clear` zeroes the
buffer. `show` pushes one APA102 frame to a PIO state machine. The frame is a
start word `0x00000000`, then one word per LED, then an end word `0xFFFFFFFF`.
Each LED word holds the marker `111`, the 5-bit global brightness, and the
blue, green and red bytes. After the frame, `show` waits 10 ms so that the LEDs
latch.

Modules:

- `Color` (color.dfy): the `Rgb` triple and the packed `0x00RRGGBB` form
  (`Pack`, `Unpack`). It also holds the buffer layout `ColorsOf`, which reads
  three bytes per LED.
- `Wire` (wire.dfy): the bit-exact LED word (`EncodePixel`), the words of a
  whole frame (`PixelWords`, `Frame`), and the events the driver produces on
  its output (`Event`: `Put(word)` or `Sleep(ms)`).
- `Driver` (driver.dfy): the class `Apa102`. It keeps these fields of the C++
  class: `numLEDs`, the `pixels` byte array (null after a failed allocation),
  the two pins, and `brightness`, a constant 16 because the source has no
  setter. A ghost `trace` records every word pushed to the state machine and
  every wait, in order. `Valid()` says that the buffer holds `3 * numLEDs`
  bytes. `Colors()` is the abstract view, one `Rgb` per LED. Each mutating
  method states its new `Colors()` in terms of the old one, and `Show` states
  its trace as the old trace followed by `Puts(Frame(brightness, Colors()))`
  and `Sleep(10)`.

Outside inputs are parameters. The result of `calloc` is the constructor's
`allocates` flag. `pio_sm_put_blocking` and `sleep_ms` are appends to the ghost
trace.

At brightness 16, `put_rgb888` puts 16 in bits 24-28, so the word for colour
(0x10, 0x20, 0x30) is `0xF0302010` (`Wire.WordExamples`).

## Model

| member | source | states |
|---|---|---|
| `Color.Pack` | apa102.cpp:141-154 | the packed colour has red in bits 16-23, green in 8-15, blue in 0-7, and bits 24-31 clear |
| `Color.Unpack` | apa102.cpp:120-129 | the packed setter keeps bits 0-23 of its argument: packing the bytes it stores gives back `color & 0xFFFFFF` |
| `Color.UnpackPack` | apa102.cpp:107-129 | reading a packed colour back gives the same components, so the two setters agree on equivalent arguments |
| `Color.ColorsOfUpdate` | apa102.cpp:110-116 | writing bytes `3*led`, `3*led+1` and `3*led+2` changes the colour of LED `led` and of no other LED |
| `Color.ColorsOfZero` | apa102.cpp:132-138 | a buffer of zero bytes holds only black LEDs |
| `Wire.EncodePixel` | apa102.cpp:73-81 | an LED word has `111` in bits 29-31, `brightness & 0x1F` in bits 24-28, then blue in 16-23, green in 8-15 and red in 0-7 |
| `Wire.PixelWordIsNotStart` | apa102.cpp:65-81 | an LED word can never be taken for the start frame |
| `Wire.PixelWords` | apa102.cpp:92-99 | the loop emits exactly one word per LED |
| `Wire.PixelWordsAt` | apa102.cpp:92-99 | word `i` of the loop's output encodes LED `i`, so the words come in index order |
| `Wire.FrameLayout` | apa102.cpp:85-100 | a frame is `numLEDs + 2` words: the start word, each LED's word in index order, then the end word |
| `Wire.WordExamples` | apa102.cpp:73-81 | bit-exact words at brightness 0, 16, 31 and 0xFF (masked to 31), for black, white and mixed colours |
| `Driver.Truncate16` | apa102.cpp:145 | storing a non-negative value in a `uint16_t` never increases it and leaves values below 65536 unchanged |
| `Driver.Apa102.constructor` | apa102.cpp:19-26 | after construction the buffer is valid and every LED is black; `numLEDs` is `num` if the allocation succeeds and 0 if not; the pins are stored and nothing has been sent |
| `Driver.Apa102.Alloc` | apa102.cpp:47-51 | a successful allocation gives `num` LEDs, all black; a failed one gives 0 LEDs |
| `Driver.Apa102.NumPixels` | apa102.cpp:83 | the pixel count is the number of LEDs in the buffer, a third of its byte length |
| `Driver.Apa102.SetPixelColor` | apa102.cpp:106-117 | for `led < numLEDs` only LED `led` changes, to `(red, green, blue)`, and `GetPixelColor(led)` then returns it packed; otherwise nothing changes |
| `Driver.Apa102.SetPixelColorPacked` | apa102.cpp:119-129 | for `led < numLEDs` only LED `led` changes, to the components in bits 16-23, 8-15 and 0-7, and `GetPixelColor(led)` then returns `color & 0xFFFFFF`; otherwise nothing changes |
| `Driver.Apa102.Clear` | apa102.cpp:131-138 | every LED is black afterwards and `GetPixelColor` returns 0 for every index; `numLEDs` is unchanged |
| `Driver.Apa102.GetPixelColor` | apa102.cpp:140-154 | returns the packed colour of LED `led` when `led < numLEDs` and 0 otherwise (offset computed without truncation) |
| `Driver.Apa102.GetPixelColorAsWritten` | apa102.cpp:141-154 | getPixelColor with its 16-bit offset; it agrees with `GetPixelColor` whenever `3*led` fits in 16 bits, hence on every strip of at most 21846 LEDs, and bits 24-31 are always clear |
| `Driver.Apa102.AsWrittenMisreadsHighLed` | apa102.cpp:145 | on a 21847-LED strip with LED 21846 white and LEDs 0 and 1 black, the as-written read returns 0 where the LED holds `0xFFFFFF` |
| `Driver.Apa102.PutStartFrame` | apa102.cpp:65-67 | pushes exactly the start word `0x00000000` |
| `Driver.Apa102.PutEndFrame` | apa102.cpp:69-71 | pushes exactly the end word `0xFFFFFFFF` |
| `Driver.Apa102.PutRgb888` | apa102.cpp:73-81 | pushes exactly the LED word for `(r, g, b)` at the driver's brightness |
| `Driver.Apa102.SleepMs` | apa102.cpp:101 | records one wait of `ms` milliseconds |
| `Driver.Apa102.Show` | apa102.cpp:85-104 | the output gains exactly the frame of the current buffer followed by the 10 ms latch wait, and the buffer is unchanged |

## Findings

| source | as written | input that shows it | evidently intended | confidence | as-written member | corrected member |
|---|---|---|---|---|---|---|
| apa102.cpp:145 | `uint16_t ofs = led * 3` keeps only the low 16 bits of the offset | a strip of 21847 LEDs: `getPixelColor(21846)` reads bytes 2, 3 and 4 (LED 0's blue, LED 1's red and green) instead of LED 21846's bytes | the full offset `3 * led`, as `setPixelColor` and `show` compute it | high; not executed | `Driver.Apa102.GetPixelColorAsWritten`, `Driver.Apa102.AsWrittenMisreadsHighLed` | `Driver.Apa102.GetPixelColor` |

The two reads agree on every index whose offset `3 * led` fits in 16 bits, and
so on every index of a strip of at most 21846 LEDs (`GetPixelColorAsWritten`'s
first two postconditions). The setters' round-trip
postconditions are stated with the corrected `GetPixelColor`.

## Left out

- Driver.Apa102.constructor: one constructor stands for both. The PIO and
  state-machine parameters are dropped, and so is the automatic claim of a free
  state machine (`pio_claim_unused_sm` on pio0, then pio1 with panic). That is
  hardware resource discovery. The `pixelPio` and `pixelSm` fields are not
  modelled, and neither are the `(pio, sm)` arguments of `put_start_frame`,
  `put_end_frame` and `put_rgb888`, so the trace does not record which state
  machine receives each word.
- `begin()` is not modelled. It loads the PIO program and configures the pins
  at 5 MHz, and the `.pio.h` program it loads is not part of this model.
- The blocking of `pio_sm_put_blocking` is not modelled. Each call is one
  `Put` event in the ghost trace.
- `sleep_ms(10)` is a `Sleep(10)` event in the trace. Wall-clock time is not
  modelled.
- The destructor and `free` are not modelled; Dafny has no explicit
  deallocation.
- `calloc` failure is the constructor's `allocates` parameter rather than
  something that can happen on its own.
- The unused fields `ledParam`, `startFrame` and `endFrame` and the unused
  local `ledParamPtr` are not modelled.
- Only the interleaving of one caller is modelled. Concurrent buffer updates
  during `show` are outside the source's contract.
