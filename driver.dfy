/** The APA102 driver object: the pixel buffer it owns and the frame it pushes
    to its serial output on show(). */
module Driver {
  import opened Color
  import opened Wire

  /** The source's uint16_t: LED counts and indices. */
  type U16 = x: int | 0 <= x < 0x1_0000

  /** A uint16_t assignment of a non-negative int: keeps the low 16 bits. */
  function Truncate16(x: nat): (r: U16)
    ensures r <= x
    ensures x < 0x1_0000 ==> r == x
  {
    x % 0x1_0000
  }

  class Apa102 {
    /** Number of LEDs; 0 after a failed allocation. */
    var numLEDs: U16
    /** Three bytes per LED (R, G, B); null when the allocation failed. */
    var pixels: array?<bv8>
    /** Data and clock pin numbers, fixed at construction. */
    const mosiPin: bv8
    const sckPin: bv8
    /** Global brightness, documented as 0..31; the driver has no setter. */
    const brightness: bv32 := 16
    /** Everything pushed to the serial state machine, and every wait, in order. */
    ghost var trace: seq<Event>

    /** The buffer always holds three bytes per LED. */
    ghost predicate Valid()
      reads this`numLEDs, this`pixels
    {
      if pixels == null then numLEDs == 0 else pixels.Length == 3 * numLEDs
    }

    /** The buffer's bytes; none when it was never allocated. */
    ghost function Bytes(): seq<bv8>
      reads this`pixels, pixels
    {
      if pixels == null then [] else pixels[..]
    }

    /** The colour of every LED, in strip order. */
    ghost function Colors(): (cs: seq<Rgb>)
      requires Valid()
      reads this`numLEDs, this`pixels, pixels
      ensures |cs| == numLEDs
    {
      ColorsOf(Bytes(), numLEDs)
    }

    /** Builds a driver for `num` LEDs on the given pins. `allocates` is
        whether calloc(num, 3) returns memory. */
    constructor (num: U16, mosiPin: bv8, sckPin: bv8, allocates: bool)
      ensures Valid()
      ensures numLEDs == if allocates then num else 0
      ensures Colors() == seq(numLEDs, _ => Black)
      ensures this.mosiPin == mosiPin && this.sckPin == sckPin
      ensures trace == []
      ensures pixels != null ==> fresh(pixels)
    {
      this.mosiPin := mosiPin;
      this.sckPin := sckPin;
      numLEDs := 0;
      pixels := null;
      trace := [];
      new;
      Alloc(num, allocates);
    }

    /** Allocates a zero-filled buffer for `num` LEDs; when the allocation
        fails the driver degrades to zero LEDs. */
    method Alloc(num: U16, allocates: bool)
      modifies this`numLEDs, this`pixels
      ensures Valid()
      ensures numLEDs == if allocates then num else 0
      ensures Colors() == seq(numLEDs, _ => Black)
      ensures pixels != null ==> fresh(pixels)
    {
      if allocates {
        pixels := new bv8[3 * num](_ => 0);
        numLEDs := num;
      } else {
        pixels := null;
        numLEDs := 0;
      }
      ColorsOfZero(Bytes(), numLEDs);
    }

    /** The number of LEDs, which is a third of the buffer's length. */
    function NumPixels(): (n: U16)
      requires Valid()
      reads this`numLEDs, this`pixels, pixels
      ensures n == |Colors()| && 3 * n == |Bytes()|
    {
      numLEDs
    }

    /** Sets LED `led` from separate components; an index past the strip
        changes nothing. */
    method SetPixelColor(led: U16, red: bv8, green: bv8, blue: bv8)
      requires Valid()
      modifies pixels
      ensures Valid()
      ensures Colors() == if led < numLEDs then old(Colors())[led := Rgb(red, green, blue)]
                          else old(Colors())
      ensures led < numLEDs ==> GetPixelColor(led) == Pack(Rgb(red, green, blue))
    {
      if led < numLEDs {
        ColorsOfUpdate(pixels[..], numLEDs, led, Rgb(red, green, blue));
        var p := led * 3;
        pixels[p] := red;
        pixels[p + 1] := green;
        pixels[p + 2] := blue;
      }
    }

    /** Sets LED `led` from a packed 0xRRGGBB value, ignoring bits 24-31; an
        index past the strip changes nothing. */
    method SetPixelColorPacked(led: U16, color: bv32)
      requires Valid()
      modifies pixels
      ensures Valid()
      ensures Colors() == if led < numLEDs then old(Colors())[led := Unpack(color)]
                          else old(Colors())
      ensures led < numLEDs ==> GetPixelColor(led) == color & 0xFF_FFFF
    {
      if led < numLEDs {
        ColorsOfUpdate(pixels[..], numLEDs, led, Unpack(color));
        var p := led * 3;
        pixels[p] := ((color >> 16) & 0xFF) as bv8;
        pixels[p + 1] := ((color >> 8) & 0xFF) as bv8;
        pixels[p + 2] := (color & 0xFF) as bv8;
      }
    }

    /** Turns every LED off; the number of LEDs stays. */
    method Clear()
      requires Valid()
      modifies pixels
      ensures Valid() && numLEDs == old(numLEDs)
      ensures Colors() == seq(numLEDs, _ => Black)
      ensures forall led: U16 :: GetPixelColor(led) == 0
    {
      if pixels != null {
        forall k | 0 <= k < numLEDs * 3 {
          pixels[k] := 0;
        }
        ColorsOfZero(pixels[..], numLEDs);
      }
    }

    /** The packed 0xRRGGBB colour of LED `led`, or 0 past the strip. The
        offset is computed without truncation (see GetPixelColorAsWritten). */
    function GetPixelColor(led: U16): (c: bv32)
      requires Valid()
      reads this`numLEDs, this`pixels, pixels
      ensures c == if led < numLEDs then Pack(Colors()[led]) else 0
    {
      if led < numLEDs then
        var ofs := led * 3;
        ((pixels[ofs] as bv32) << 16) | ((pixels[ofs + 1] as bv32) << 8) | (pixels[ofs + 2] as bv32)
      else
        0
    }

    /** getPixelColor as written: the offset `led * 3` is stored in a 16-bit
        variable, so past LED 21845 it wraps and reads another LED's bytes.
        It agrees with GetPixelColor whenever the offset fits, so on every
        strip of at most 21846 LEDs. */
    function GetPixelColorAsWritten(led: U16): (c: bv32)
      requires Valid()
      reads this`numLEDs, this`pixels, pixels
      ensures 3 * led < 0x1_0000 ==> c == GetPixelColor(led)
      ensures numLEDs <= 21846 ==> c == GetPixelColor(led)
      ensures c >> 24 == 0
    {
      if led < numLEDs then
        var ofs := Truncate16(led * 3);
        ((pixels[ofs] as bv32) << 16) | ((pixels[ofs + 1] as bv32) << 8) | (pixels[ofs + 2] as bv32)
      else
        0
    }

    /** On a strip of 21847 LEDs whose last LED is white and whose first two
        are black, getPixelColor as written reports the last LED as black. */
    lemma AsWrittenMisreadsHighLed()
      requires Valid() && numLEDs == 21847
      requires Colors()[0] == Black && Colors()[1] == Black
      requires Colors()[21846] == Rgb(0xFF, 0xFF, 0xFF)
      ensures GetPixelColor(21846) == 0xFF_FFFF
      ensures GetPixelColorAsWritten(21846) == 0
    {
    }

    /** Pushes the start frame. */
    method PutStartFrame()
      modifies this`trace
      ensures trace == old(trace) + [Put(StartWord)]
    {
      trace := trace + [Put(0)];
    }

    /** Pushes the end frame. */
    method PutEndFrame()
      modifies this`trace
      ensures trace == old(trace) + [Put(EndWord)]
    {
      trace := trace + [Put(!0)];
    }

    /** Pushes the word for one LED with the driver's brightness. */
    method PutRgb888(r: bv8, g: bv8, b: bv8)
      modifies this`trace
      ensures trace == old(trace) + [Put(EncodePixel(brightness, Rgb(r, g, b)))]
    {
      trace := trace + [Put(EncodePixel(brightness, Rgb(r, g, b)))];
    }

    /** Waits `ms` milliseconds. */
    method SleepMs(ms: nat)
      modifies this`trace
      ensures trace == old(trace) + [Sleep(ms)]
    {
      trace := trace + [Sleep(ms)];
    }

    /** Sends one whole frame for the current buffer, then waits for the LEDs
        to latch. The buffer is not changed. */
    method Show()
      requires Valid()
      modifies this`trace
      ensures Valid() && Bytes() == old(Bytes())
      ensures trace == old(trace) + Puts(Frame(brightness, Colors())) + [Sleep(SettleMs)]
    {
      ghost var colors := Colors();
      PutStartFrame();
      var i: U16 := 0;
      while i < numLEDs
        invariant 0 <= i <= numLEDs
        invariant trace == old(trace) + Puts([StartWord] + PixelWords(brightness, colors[..i]))
      {
        var red := pixels[i * 3];
        var green := pixels[i * 3 + 1];
        var blue := pixels[i * 3 + 2];
        PixelWordsSnoc(brightness, colors, i);
        PutsSnoc([StartWord] + PixelWords(brightness, colors[..i]), EncodePixel(brightness, colors[i]));
        assert colors[i] == Rgb(red, green, blue);
        PutRgb888(red, green, blue);
        i := i + 1;
      }
      assert colors[..i] == colors;
      PutsSnoc([StartWord] + PixelWords(brightness, colors), EndWord);
      PutEndFrame();
      SleepMs(10);
    }
  }
}
