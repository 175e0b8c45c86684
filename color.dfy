/** Colours as the driver stores and exchanges them: one `Rgb` triple per LED,
    the packed `0x00RRGGBB` form of the public API, and the layout of the pixel
    buffer (three bytes per LED, in R, G, B order). */
module Color {

  /** One LED's colour: the three bytes the pixel buffer holds for it. */
  datatype Rgb = Rgb(red: bv8, green: bv8, blue: bv8)

  /** The "off" colour a freshly allocated or cleared buffer holds. */
  const Black := Rgb(0, 0, 0)

  /** The packed form returned by getPixelColor: red in bits 16-23, green in
      bits 8-15, blue in bits 0-7, and bits 24-31 clear. */
  function Pack(c: Rgb): (p: bv32)
    ensures p >> 24 == 0
    ensures (p >> 16) & 0xFF == c.red as bv32
    ensures (p >> 8) & 0xFF == c.green as bv32
    ensures p & 0xFF == c.blue as bv32
  {
    ((c.red as bv32) << 16) | ((c.green as bv32) << 8) | (c.blue as bv32)
  }

  /** How the packed setPixelColor reads its argument: each byte is the value
      shifted down and truncated to 8 bits, so bits 24-31 are ignored. */
  function Unpack(p: bv32): (c: Rgb)
    ensures Pack(c) == p & 0xFF_FFFF
  {
    Rgb(((p >> 16) & 0xFF) as bv8, ((p >> 8) & 0xFF) as bv8, (p & 0xFF) as bv8)
  }

  /** Packing a colour and reading it back with the packed setter's rule gives
      the same colour: both setters agree on equivalent arguments. */
  lemma UnpackPack(c: Rgb)
    ensures Unpack(Pack(c)) == c
  {
  }

  /** The colours held by a buffer of `n` LEDs, three bytes each. */
  function ColorsOf(bytes: seq<bv8>, n: nat): (cs: seq<Rgb>)
    requires |bytes| == 3 * n
  {
    seq(n, i requires 0 <= i < n => Rgb(bytes[3 * i], bytes[3 * i + 1], bytes[3 * i + 2]))
  }

  /** Writing bytes `3*led`, `3*led+1` and `3*led+2` changes LED `led` and no other. */
  lemma ColorsOfUpdate(bytes: seq<bv8>, n: nat, led: nat, c: Rgb)
    requires |bytes| == 3 * n && led < n
    ensures ColorsOf(bytes[3 * led := c.red][3 * led + 1 := c.green][3 * led + 2 := c.blue], n)
         == ColorsOf(bytes, n)[led := c]
  {
  }

  /** A buffer of zero bytes holds only black LEDs. */
  lemma ColorsOfZero(bytes: seq<bv8>, n: nat)
    requires |bytes| == 3 * n
    requires forall k :: 0 <= k < |bytes| ==> bytes[k] == 0
    ensures ColorsOf(bytes, n) == seq(n, _ => Black)
  {
  }
}
