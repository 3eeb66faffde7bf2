/** The font registry of the graphic display base class: an append-only list
    of fonts with the metrics measured when each was added, the index of the
    current font, and the baseline shift of the text cursor when the font
    changes. Font 0 is the built-in font. */
module Fonts {
  import opened Text
  import opened Ints

  /** The byte-wide metrics kept per font: the baseline, the widest glyph
      advance and the line advance. */
  datatype FontSize = FontSize(baseLine: int, xAdvance: int, yAdvance: int)
  {
    predicate Valid() {
      0 <= baseLine <= 255 && 0 <= xAdvance <= 255 && 0 <= yAdvance <= 255
    }
  }

  /** The metrics registered with the built-in font. */
  const DefaultSize := FontSize(0, 6, 8)

  /** One Adafruit GFX glyph as far as the metrics read it: its advance
      (unsigned byte) and its vertical offset from the baseline (signed byte). */
  datatype Glyph = Glyph(xAdvance: int, yOffset: int)

  /** An Adafruit GFX font: the first and last character code, one glyph per
      code and the line advance. */
  datatype GfxFont = GfxFont(first: int, last: int, glyphs: seq<Glyph>, yAdvance: int)
  {
    predicate Valid() {
      && 0 <= first <= last <= 255
      && |glyphs| == last - first + 1
      && 0 <= yAdvance <= 255
      && forall i :: 0 <= i < |glyphs| ==>
           0 <= glyphs[i].xAdvance <= 255 && -128 <= glyphs[i].yOffset <= 127
    }
  }

  /** A registered font; the built-in font is a null pointer in the list. */
  datatype FontRef = Builtin | Gfx(font: GfxFont)

  /** A byte read as a C `char`, taken to be signed. */
  function SignedChar(c: int): (s: int)
    requires 0 <= c <= 255
    ensures -128 <= s <= 127 && (s - c) % 256 == 0
  {
    if c < 128 then c else c - 256
  }

  /** The index of the glyph whose offset gives the baseline: the reference
      character minus the first code when it lies above the first code, and
      0 otherwise. A reference character above 127 is negative as a char, so
      its uint16 index lies beyond every glyph. */
  function BaselineGlyphIndex(first: int, refChar: int): (i: int)
    requires 0 <= first <= 255 && 0 <= refChar <= 255
    ensures refChar < 128 ==> i == if refChar > first then refChar - first else 0
    ensures refChar >= 128 ==> i >= 256
  {
    var c := SignedChar(refChar);
    if c % 65536 > first then (c - first) % 65536 else 0
  }

  function Max(a: int, b: int): int { if a >= b then a else b }

  /** The largest of `x0` and the advances of `glyphs`. */
  function MaxAdvance(x0: int, glyphs: seq<Glyph>): (m: int)
    ensures m >= x0
    ensures forall i :: 0 <= i < |glyphs| ==> glyphs[i].xAdvance <= m
    ensures m == x0 || exists i :: 0 <= i < |glyphs| && glyphs[i].xAdvance == m
  {
    if |glyphs| == 0 then x0
    else
      var init := glyphs[..|glyphs| - 1];
      var m := Max(MaxAdvance(x0, init), glyphs[|glyphs| - 1].xAdvance);
      assert forall i :: 0 <= i < |init| ==> init[i] == glyphs[i];
      m
  }

  /** The metrics getFontSize measures: the widest advance among the initial
      value and every glyph, the font's line advance, and the baseline as the
      negated offset of the reference glyph, stored as an unsigned byte. */
  function FontMetrics(font: GfxFont, size: FontSize, refChar: int): (r: FontSize)
    requires font.Valid() && 0 <= refChar <= 255
    ensures r.xAdvance >= size.xAdvance
    ensures forall i :: 0 <= i < |font.glyphs| ==> font.glyphs[i].xAdvance <= r.xAdvance
    ensures r.xAdvance == size.xAdvance
            || exists i :: 0 <= i < |font.glyphs| && font.glyphs[i].xAdvance == r.xAdvance
    ensures r.yAdvance == font.yAdvance
    ensures refChar == 0 || refChar >= 128 || refChar > font.last ==> r.baseLine == size.baseLine
    ensures 0 < refChar < 128 && font.first <= refChar <= font.last ==>
              r.baseLine == Byte(-font.glyphs[refChar - font.first].yOffset)
    ensures 0 < refChar < 128 && refChar <= font.first ==> r.baseLine == Byte(-font.glyphs[0].yOffset)
  {
    var index := BaselineGlyphIndex(font.first, refChar);
    FontSize(if refChar != 0 && index < |font.glyphs| then Byte(-font.glyphs[index].yOffset) else size.baseLine,
             MaxAdvance(size.xAdvance, font.glyphs),
             font.yAdvance)
  }

  /** getFontSize: one pass over the glyphs that keeps the widest advance and
      picks up the baseline at the reference glyph. */
  method GetFontSize(font: GfxFont, size: FontSize, refChar: int) returns (r: FontSize)
    requires font.Valid() && 0 <= refChar <= 255
    ensures r == FontMetrics(font, size, refChar)
  {
    var first := font.first;
    var last := font.last;
    var index := BaselineGlyphIndex(first, refChar);
    var count := last - first + 1;
    r := size;
    var i := 0;
    while i < count
      invariant 0 <= i <= count
      invariant r.xAdvance == MaxAdvance(size.xAdvance, font.glyphs[..i])
      invariant r.baseLine == if refChar != 0 && index < i then Byte(-font.glyphs[index].yOffset) else size.baseLine
      invariant r.yAdvance == size.yAdvance
    {
      var glyph := font.glyphs[i];
      assert font.glyphs[..i + 1][..i] == font.glyphs[..i];
      assert MaxAdvance(size.xAdvance, font.glyphs[..i + 1])
             == Max(MaxAdvance(size.xAdvance, font.glyphs[..i]), glyph.xAdvance);
      if refChar != 0 && i == index {
        r := r.(baseLine := Byte(-glyph.yOffset));
      }
      if glyph.xAdvance > r.xAdvance {
        r := r.(xAdvance := glyph.xAdvance);
      }
      i := i + 1;
    }
    assert font.glyphs[..count] == font.glyphs;
    r := r.(yAdvance := font.yAdvance);
  }

  /** The baseline setfont uses for a font: its measured baseline, with the
      built-in font counting as 6. */
  function BaseLineOf(sizes: seq<FontSize>, f: int): int
    requires 0 <= f < |sizes|
  {
    if f == 0 then 6 else sizes[f].baseLine
  }

  class FontRegistry {
    var fonts: seq<FontRef>
    var sizes: seq<FontSize>
    var currentFont: int
    /** The text cursor of the display owning the registry; a font change
        moves its row by the difference of the baselines. */
    var cursorX: int
    var cursorY: int

    ghost predicate Valid()
      reads this
    {
      && |fonts| == |sizes| >= 1
      && fonts[0] == Builtin && sizes[0] == DefaultSize
      && 0 <= currentFont < |fonts| && currentFont <= 255
      && forall i :: 0 <= i < |sizes| ==> sizes[i].Valid()
    }

    /** The registry starts with the built-in font and its default metrics. */
    constructor ()
      ensures Valid()
      ensures fonts == [Builtin] && sizes == [DefaultSize] && currentFont == 0
      ensures cursorX == 0 && cursorY == 0
    {
      fonts := [Builtin];
      sizes := [DefaultSize];
      currentFont := 0;
      cursorX, cursorY := 0, 0;
    }

    /** addfont with an explicit baseline: the measured size keeps that
        baseline and gets the widest advance and the line advance. */
    method AddFont(font: GfxFont, baseLine: int)
      requires Valid() && font.Valid() && 0 <= baseLine <= 255
      modifies this
      ensures Valid()
      ensures fonts == old(fonts) + [Gfx(font)]
      ensures sizes == old(sizes) + [FontMetrics(font, FontSize(baseLine, 0, 0), 0)]
      ensures currentFont == old(currentFont) && cursorX == old(cursorX) && cursorY == old(cursorY)
    {
      var size := GetFontSize(font, FontSize(baseLine, 0, 0), 0);
      fonts := fonts + [Gfx(font)];
      sizes := sizes + [size];
    }

    /** addfont with a reference text: the baseline comes from the glyph of its
        first character (none for an empty text). */
    method AddFontWithReference(font: GfxFont, reference: string)
      requires Valid() && font.Valid()
      requires |reference| == 0 || reference[0] as int <= 255
      modifies this
      ensures Valid()
      ensures fonts == old(fonts) + [Gfx(font)]
      ensures sizes == old(sizes) + [FontMetrics(font, FontSize(0, 0, 0),
                                                 if |reference| == 0 then 0 else reference[0] as int)]
      ensures currentFont == old(currentFont) && cursorX == old(cursorX) && cursorY == old(cursorY)
    {
      var refChar := if |reference| == 0 then 0 else reference[0] as int;
      var size := GetFontSize(font, FontSize(0, 0, 0), refChar);
      fonts := fonts + [Gfx(font)];
      sizes := sizes + [size];
    }

    /** addfont with its reference text left at the default "A". */
    method AddFontDefaultReference(font: GfxFont)
      requires Valid() && font.Valid()
      modifies this
      ensures Valid()
      ensures fonts == old(fonts) + [Gfx(font)]
      ensures sizes == old(sizes) + [FontMetrics(font, FontSize(0, 0, 0), 'A' as int)]
      ensures currentFont == old(currentFont) && cursorX == old(cursorX) && cursorY == old(cursorY)
    {
      AddFontWithReference(font, "A");
    }

    /** setfont: an index past the list changes nothing; otherwise the font
        becomes current and the cursor row moves by the baseline difference. */
    method SetFont(f: int)
      requires Valid() && 0 <= f <= 255
      modifies this
      ensures Valid()
      ensures fonts == old(fonts) && sizes == old(sizes) && cursorX == old(cursorX)
      ensures f >= |fonts| ==> currentFont == old(currentFont) && cursorY == old(cursorY)
      ensures f < |fonts| ==>
                currentFont == f
                && var adjustment := BaseLineOf(sizes, f) - BaseLineOf(sizes, old(currentFont));
                   cursorY == if adjustment != 0 then Int16(old(cursorY) + adjustment) else old(cursorY)
    {
      if f < |fonts| {
        var oldBaseLine := BaseLineOf(sizes, currentFont);
        var newBaseLine := BaseLineOf(sizes, f);
        currentFont := f;
        SetTextFont(newBaseLine - oldBaseLine);
      }
    }

    /** The matrix display's setTextFont: a nonzero adjustment moves the
        cursor row, stored through the `int16_t` of setCursor. */
    method SetTextFont(adjustment: int)
      modifies this
      ensures adjustment != 0 ==> cursorY == Int16(old(cursorY) + adjustment)
      ensures adjustment == 0 ==> cursorY == old(cursorY)
      ensures cursorX == old(cursorX)
      ensures fonts == old(fonts) && sizes == old(sizes) && currentFont == old(currentFont)
    {
      if adjustment != 0 {
        cursorY := Int16(cursorY + adjustment);
      }
    }

    /** The font command "set": the argument must name a registered font;
        it reaches setfont as a uint8. */
    method FontParserSet(args: string) returns (handled: bool)
      requires Valid()
      modifies this
      ensures Valid()
      ensures handled <==> 0 <= Atol(args) < |old(fonts)|
      ensures handled ==> currentFont == Byte(Atol(args))
      ensures !handled ==> currentFont == old(currentFont) && cursorY == old(cursorY)
      ensures fonts == old(fonts) && sizes == old(sizes) && cursorX == old(cursorX)
    {
      var font := ParseRangedLong(args, 0, |fonts| - 1, -1, -1);
      if font >= 0 {
        SetFont(Byte(font));
        handled := true;
      } else {
        handled := false;
      }
    }

    /** getTextFontSize: the metrics of the current font. */
    function TextFontSize(): (s: FontSize)
      requires Valid()
      reads this
      ensures s.Valid()
      ensures s in sizes
      ensures currentFont == 0 ==> s == DefaultSize
    {
      sizes[currentFont]
    }

    /** getTextFontCount: the number of registered fonts, never zero. */
    function TextFontCount(): (n: int)
      requires Valid()
      reads this
      ensures n >= 1 && n == |sizes|
    {
      |fonts|
    }
  }
}
