/** The HT1621/HT1622 segment-digit frame buffer. It shares the drawing
    procedures of the MAX72xx buffer but encodes glyphs with its own tables,
    and its printFormatted leaves the cursor where it was. The controller
    code never sets the frame-buffer geometry itself, so the model takes it
    as constructor arguments next to the LCD type. */
module Ht162x {
  import opened Glyphs
  import opened DigitFormat
  import opened FrameBuffer

  /** The panels the controller knows; any other value of the C++ enum
      selects no configuration. */
  datatype LcdType = Lcd12Digit7Segment | Lcd10Digit16Segment | Unsupported

  class Ht162xDigits {
    const lcdType: LcdType
    const digitCnt: int
    const digitRawCnt: int
    const segmentCnt: int
    const isActive: bool
    const length: int
    const width: int
    const height: int
    const bitmap: array<bv8>
    var cursorX: int
    var cursorY: int
    var wrap: bool

    ghost predicate Valid()
    {
      && bitmap.Length == width * height
      && Lay().Valid()
    }

    function Lay(): Layout
    {
      Layout(width, height, length)
    }

    /** The panel type fixes the digit count, the raw digit count of the
        controller memory and the segments per digit; an unknown type leaves
        the display inactive. */
    constructor (lcdType: LcdType, width: int, height: int, length: int)
      requires 1 <= length <= width && 1 <= height && width * height <= 255
      ensures Valid() && fresh(bitmap)
      ensures this.lcdType == lcdType && this.width == width && this.height == height && this.length == length
      ensures lcdType == Lcd12Digit7Segment ==>
                digitCnt == 12 && digitRawCnt == 13 && segmentCnt == 8 && isActive
      ensures lcdType == Lcd10Digit16Segment ==>
                digitCnt == 10 && digitRawCnt == 12 && segmentCnt == 17 && isActive
      ensures lcdType == Unsupported ==> !isActive
      ensures cursorX == 0 && cursorY == 0 && wrap
    {
      this.lcdType := lcdType;
      match lcdType {
        case Lcd12Digit7Segment =>
          digitCnt, digitRawCnt, segmentCnt, isActive := 12, 13, 8, true;
        case Lcd10Digit16Segment =>
          digitCnt, digitRawCnt, segmentCnt, isActive := 10, 12, 17, true;
        case Unsupported =>
          digitCnt, digitRawCnt, segmentCnt, isActive := 0, 0, 0, false;
      }
      this.width, this.height, this.length := width, height, length;
      bitmap := new bv8[width * height];
      cursorX, cursorY, wrap := 0, 0, true;
    }

    method SetCursor(x: int, y: int)
      modifies this
      ensures cursorX == x && cursorY == y && wrap == old(wrap)
    {
      cursorX, cursorY := x, y;
    }

    method SetCursorX(x: int)
      modifies this
      ensures cursorX == x && cursorY == old(cursorY) && wrap == old(wrap)
    {
      cursorX := x;
    }

    method SetCursorY(y: int)
      modifies this
      ensures cursorY == y && cursorX == old(cursorX) && wrap == old(wrap)
    {
      cursorY := y;
    }

    method SetTextWrap(w: bool)
      modifies this
      ensures wrap == w && cursorX == old(cursorX) && cursorY == old(cursorY)
    {
      wrap := w;
    }

    /** fillRect: the clamped rectangle gets the pattern. */
    method FillRect(x: int, y: int, w: int, h: int, pattern: bv8)
      requires Valid()
      modifies bitmap
      ensures bitmap[..] == FillRectCells(old(bitmap[..]), width, height, x, y, w, h, pattern)
    {
      FillRectRows(bitmap, width, height, x, y, w, h, pattern);
    }

    /** printFormatted with the HT162x glyphs; unlike the MAX72xx variant it
        does not move the cursor. */
    method PrintFormatted(x: int, y: int, w: int, align: int, content: string) returns (fits: bool)
      requires Valid()
      modifies bitmap
      ensures bitmap[..] == FormatCells(old(bitmap[..]), Lay(), x, y, w, align, content, Ht162xGlyph)
      ensures fits == FormatFits(Lay(), x, y, w, content, Ht162xGlyph)
    {
      var size;
      fits, size := FormatInto(bitmap, Lay(), x, y, w, align, content, Ht162xGlyph);
    }

    /** write(c) with the HT162x glyphs. */
    method Write(c: char)
      requires Valid()
      modifies this, bitmap
      ensures Written(bitmap[..], cursorX, cursorY)
              == WriteChar(old(bitmap[..]), width, height, old(cursorX), old(cursorY), wrap, c, Ht162xGlyph)
      ensures wrap == old(wrap)
    {
      cursorX, cursorY := WriteInto(bitmap, width, height, cursorX, cursorY, wrap, c, Ht162xGlyph);
    }
  }
}
