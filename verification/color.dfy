/**
 * The colour reduction of `colorRead`: three 16-bit channels squeezed into
 * the 16-bit colour the display takes. The code shifts each channel right by
 * 7, lays the 9-bit results out at bits 15, 7 and 0 of a 24-bit value and
 * cuts 5, 6 and 5 bits out of that. The 9-bit pieces overlap, so a low bit
 * of one channel lands in the field of its neighbour.
 */
module Color {
  import opened Types

  /** One acquisition: the four raw channel magnitudes. */
  datatype Sample = Sample(clear: Word, red: Word, green: Word, blue: Word)

  /**
   * `hexColor24`. The masks with 0xFFFFFF are `long`, so the shift by 15 is
   * done at 32 bits and keeps every bit.
   */
  function HexColor24(red: Word, green: Word, blue: Word): (h: Long)
    ensures h < 0x100_0000
    ensures h >> 16 == (red >> 8) as Long
    ensures h & 0x7F == ((blue >> 7) & 0x7F) as Long
  {
    ((((red as Long) >> 7) & 0xFFFFFF) << 15)
    | ((((green as Long) >> 7) & 0xFFFFFF) << 7)
    | (((blue as Long) >> 7) & 0xFFFFFF)
  }

  /**
   * The right-hand side of the `hexColor` assignment: bits 19..23, 10..15 and
   * 3..7 of `h` placed one after the other as a 5-6-5 colour.
   */
  function HexColorWide(h: Long): (c: Long)
    ensures c < 0x1_0000
    ensures c >> 11 == (h >> 19) & 0x1F
    ensures (c >> 5) & 0x3F == (h >> 10) & 0x3F
    ensures c & 0x1F == (h >> 3) & 0x1F
  {
    ((h & 0xF80000) >> 8) | ((h & 0xfc00) >> 5) | ((h & 0xf8) >> 3)
  }

  /**
   * `hexColor`: the store into a `uint16_t`. No bit of the packed value is
   * lost, so its fields are those `HexColorWide` states.
   */
  function HexColor(h: Long): (c: Word)
    ensures c as Long == HexColorWide(h)
  {
    HexColorWide(h) as Word
  }

  /** The 5-6-5 layout of a display colour: red field on top, then green, then blue. */
  function Pack565(top: Word, middle: Word, bottom: Word): Word
    requires top < 0x20 && middle < 0x40 && bottom < 0x20
  {
    (top << 11) | (middle << 5) | bottom
  }

  /** The top 5 bits of a display colour. */
  function TopField(c: Word): Word { c >> 11 }

  /** The middle 6 bits of a display colour. */
  function MiddleField(c: Word): Word { (c >> 5) & 0x3F }

  /** The bottom 5 bits of a display colour. */
  function BottomField(c: Word): Word { c & 0x1F }

  /**
   * The colour `colorRead` draws for the three channels. The top field is red
   * alone; the middle field is green's bits 10..15 with red's bit 7 ORed in
   * at its bit 5; the bottom field is blue's bits 10..14 with green's bit 7
   * ORed in at its bit 4.
   */
  function Reduce(red: Word, green: Word, blue: Word): (c: Word)
    ensures TopField(c) == red >> 11
    ensures MiddleField(c) == (green >> 10) | (((red >> 7) & 1) << 5)
    ensures BottomField(c) == ((blue >> 10) & 0x1F) | (((green >> 7) & 1) << 4)
  {
    HexColor(HexColor24(red, green, blue))
  }

  /** The reduction of a whole sample; `clear` takes no part. */
  function ReduceSample(s: Sample): Word {
    Reduce(s.red, s.green, s.blue)
  }

  /** A colour is the packing of its three fields. */
  lemma FieldsDetermineColor(c: Word)
    ensures Pack565(TopField(c), MiddleField(c), BottomField(c)) == c
  {}

  /** The reduction, stated as a 5-6-5 packing of the three overlapping fields. */
  lemma ReduceAsPack(red: Word, green: Word, blue: Word)
    ensures Reduce(red, green, blue) == Pack565(red >> 11,
                                                (green >> 10) | (((red >> 7) & 1) << 5),
                                                ((blue >> 10) & 0x1F) | (((green >> 7) & 1) << 4))
  {
    FieldsDetermineColor(Reduce(red, green, blue));
  }

  /** The clear channel does not influence the colour. */
  lemma ClearIgnored(s: Sample, clear: Word)
    ensures ReduceSample(s.(clear := clear)) == ReduceSample(s)
  {}

  /** Red feeds the top field alone, so more red never lowers it. */
  lemma TopFieldMonotone(red1: Word, red2: Word, green1: Word, green2: Word, blue1: Word, blue2: Word)
    requires red1 <= red2
    ensures TopField(Reduce(red1, green1, blue1)) <= TopField(Reduce(red2, green2, blue2))
  {}

  /**
   * The middle field is not monotone in green: with red's bit 7 set, green
   * 0x7FFF gives 63 and green 0x8000 gives 32.
   */
  lemma MiddleFieldNotMonotone()
    ensures exists red, green1, green2, blue ::
              green1 <= green2 && MiddleField(Reduce(red, green1, blue)) > MiddleField(Reduce(red, green2, blue))
  {
    assert MiddleField(Reduce(0x80, 0x7FFF, 0)) == 63;
    assert MiddleField(Reduce(0x80, 0x8000, 0)) == 32;
  }

  /**
   * The bottom field is not monotone in blue: blue 0x7FFF gives 31 and blue
   * 0x8000 gives 0, because blue's bit 15 is masked out.
   */
  lemma BottomFieldNotMonotone()
    ensures exists red, green, blue1, blue2 ::
              blue1 <= blue2 && BottomField(Reduce(red, green, blue1)) > BottomField(Reduce(red, green, blue2))
  {
    assert BottomField(Reduce(0, 0, 0x7FFF)) == 31;
    assert BottomField(Reduce(0, 0, 0x8000)) == 0;
  }

  /** Red 0x3F80, green 0x1F80, blue 0x0F80 (any clear) packs to 0x3CF3. */
  lemma WorkedExample(clear: Word)
    ensures HexColor24(0x3F80, 0x1F80, 0x0F80) == 0x3F9F9F
    ensures ReduceSample(Sample(clear, 0x3F80, 0x1F80, 0x0F80)) == 0x3CF3
  {}
}
