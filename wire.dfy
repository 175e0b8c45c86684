/** The APA102 wire protocol as the driver emits it: a start word, one 32-bit
    word per LED, an end word, then the latch delay. */
module Wire {
  import opened Color

  /** The start frame, 32 zero bits. */
  const StartWord: bv32 := 0
  /** The end frame, 32 one bits. */
  const EndWord: bv32 := 0xFFFF_FFFF
  /** Milliseconds show() waits after the end frame so that the LEDs latch. */
  const SettleMs: nat := 10

  /** What the driver does on its output: push one word to the serial state
      machine (blocking until it is accepted), or wait. */
  datatype Event = Put(word: bv32) | Sleep(ms: nat)

  /** The word for one LED: marker 111 in bits 29-31, the low five bits of the
      global brightness in bits 24-28, then blue, green and red bytes. */
  function EncodePixel(brightness: bv32, c: Rgb): (w: bv32)
    ensures w >> 29 == 7
    ensures (w >> 24) & 0x1F == brightness & 0x1F
    ensures (w >> 16) & 0xFF == c.blue as bv32
    ensures (w >> 8) & 0xFF == c.green as bv32
    ensures w & 0xFF == c.red as bv32
  {
    (0x7 << 29) | ((brightness & 0x1F) << 24) | ((c.blue as bv32) << 16) | ((c.green as bv32) << 8) | ((c.red as bv32) << 0)
  }

  /** A pixel word always carries the marker bits, so it is never a start frame. */
  lemma PixelWordIsNotStart(brightness: bv32, c: Rgb)
    ensures EncodePixel(brightness, c) != StartWord
  {
  }

  /** The pixel words of a whole strip, one per LED, in index order. */
  function PixelWords(brightness: bv32, colors: seq<Rgb>): (ws: seq<bv32>)
    ensures |ws| == |colors|
  {
    if colors == [] then []
    else PixelWords(brightness, colors[..|colors| - 1]) + [EncodePixel(brightness, colors[|colors| - 1])]
  }

  /** Word `i` of the pixel words encodes LED `i`. */
  lemma {:induction false} PixelWordsAt(brightness: bv32, colors: seq<Rgb>, i: nat)
    requires i < |colors|
    ensures PixelWords(brightness, colors)[i] == EncodePixel(brightness, colors[i])
  {
    if i < |colors| - 1 {
      PixelWordsAt(brightness, colors[..|colors| - 1], i);
    }
  }

  /** The words of one frame: start word, pixel words, end word. */
  function Frame(brightness: bv32, colors: seq<Rgb>): seq<bv32>
  {
    [StartWord] + PixelWords(brightness, colors) + [EndWord]
  }

  /** A frame is exactly `|colors| + 2` words: first the start word, then the
      encoding of every LED in index order, last the end word. */
  lemma FrameLayout(brightness: bv32, colors: seq<Rgb>)
    ensures |Frame(brightness, colors)| == |colors| + 2
    ensures Frame(brightness, colors)[0] == StartWord
    ensures Frame(brightness, colors)[|colors| + 1] == EndWord
    ensures forall i :: 0 <= i < |colors| ==>
              Frame(brightness, colors)[i + 1] == EncodePixel(brightness, colors[i])
  {
    forall i | 0 <= i < |colors|
      ensures Frame(brightness, colors)[i + 1] == EncodePixel(brightness, colors[i])
    {
      PixelWordsAt(brightness, colors, i);
    }
  }

  /** Extending the strip by one LED extends its pixel words by that LED's word. */
  lemma PixelWordsSnoc(brightness: bv32, colors: seq<Rgb>, i: nat)
    requires i < |colors|
    ensures PixelWords(brightness, colors[..i + 1])
         == PixelWords(brightness, colors[..i]) + [EncodePixel(brightness, colors[i])]
  {
    assert colors[..i + 1][..i] == colors[..i];
  }

  /** The channel events for pushing `ws` word by word. */
  function Puts(ws: seq<bv32>): seq<Event>
  {
    seq(|ws|, i requires 0 <= i < |ws| => Put(ws[i]))
  }

  /** Pushing one more word adds one event. */
  lemma PutsSnoc(ws: seq<bv32>, w: bv32)
    ensures Puts(ws + [w]) == Puts(ws) + [Put(w)]
  {
  }

  /** Bit-exact words for the default brightness and for the extremes of
      brightness and colour. */
  lemma WordExamples()
    ensures EncodePixel(16, Rgb(0x10, 0x20, 0x30)) == 0xF030_2010
    ensures EncodePixel(0, Rgb(0, 0, 0)) == 0xE000_0000
    ensures EncodePixel(31, Rgb(0xFF, 0xFF, 0xFF)) == 0xFFFF_FFFF
    ensures EncodePixel(0xFF, Rgb(0xFF, 0, 0)) == 0xFF00_00FF
  {
  }
}
