/** The MAX72xx segment-digit frame buffer: a chain of hDisplays x vDisplays
    modules of `length` digits, one segment byte per digit in `bitmap`, a text
    cursor and a wrap flag. Every drawing operation works on the frame buffer
    only; Flush hands the buffer to the controller chain, recorded here as the
    sequence of blocks sent. */
module Max72xx {
  import opened Glyphs
  import opened DigitFormat
  import opened FrameBuffer
  import opened Ints

  /** The sizes the constructor derives from its arguments: the `length`
      member, `_width` and the `uint8_t` bitmapSize. */
  datatype Sizing = Sizing(length: int, width: int, bitmapSize: int)

  /** The sizes as the constructor computes them: the member `length` is
      clamped to 8, but in the constructor body the name `length` is the
      parameter, so `_width` and `bitmapSize` use the unclamped value. */
  function SizingAsWritten(hDisplays: int, vDisplays: int, length: int): (s: Sizing)
    requires 1 <= hDisplays && 1 <= vDisplays && 1 <= length
    ensures s.length == Min(length, 8)
    ensures length <= 8 ==> s == ClampedSizing(hDisplays, vDisplays, length)
  {
    Sizing(if length > 8 then 8 else length, hDisplays * length, Byte(hDisplays * vDisplays * length))
  }

  /** The sizes with the clamp applied throughout, as the constructor of
      this model computes them. */
  function ClampedSizing(hDisplays: int, vDisplays: int, length: int): (s: Sizing)
    requires 1 <= hDisplays && 1 <= vDisplays && 1 <= length
    ensures 1 <= s.length <= 8 && s.length <= length
    ensures s.width == hDisplays * s.length
  {
    var len := if length > 8 then 8 else length;
    Sizing(len, hDisplays * len, Byte(hDisplays * vDisplays * len))
  }

  /** With 12 digits on one module the member length is 8 while the bitmap
      holds 12 bytes. The flush of digit 0 starts at offset 12 and steps
      down by 8: after the first step the offset is 4, still above 0, so
      the do-while goes on, and the next step wraps the `uint16_t` offset
      to 65532, far outside the 14 bytes allocated. */
  lemma OversizedLengthOverrun()
    ensures var s := SizingAsWritten(1, 1, 12);
            && s.length == 8 && s.width == 12 && s.bitmapSize == 12
            && Word(s.bitmapSize + 0 - s.length) > 0
            && Word(Word(s.bitmapSize + 0 - s.length) - s.length) >= s.bitmapSize + 2
  {
  }

  /** With the clamp applied throughout, the bitmap is the display's cells
      and holds `length` bytes per module, so the flush walk of every digit,
      starting at bitmapSize + digit and stepping down by length, reaches the
      digit after exactly one step per module. */
  lemma {:induction false} ClampedSizingConsistent(hDisplays: int, vDisplays: int, length: int)
    requires 1 <= hDisplays && 1 <= vDisplays && 1 <= length
    requires hDisplays * vDisplays * Min(length, 8) <= 255
    ensures var s := ClampedSizing(hDisplays, vDisplays, length);
            && s.bitmapSize == s.width * vDisplays
            && s.bitmapSize == hDisplays * vDisplays * s.length
  {
    var s := ClampedSizing(hDisplays, vDisplays, length);
    MulAtLeast(hDisplays * vDisplays, s.length);
    MulAtLeast(hDisplays, vDisplays);
    assert hDisplays * s.length * vDisplays == hDisplays * vDisplays * s.length;
  }

  class Max72xxDigits {
    const hDisplays: int
    const vDisplays: int
    const length: int
    const width: int
    const height: int
    const bitmap: array<bv8>
    var cursorX: int
    var cursorY: int
    var wrap: bool
    /** The blocks handed to the SPI driver's sendBlock, oldest first. */
    var sent: seq<seq<bv8>>

    ghost predicate Valid()
    {
      && 1 <= hDisplays && 1 <= vDisplays && 1 <= length <= 8
      && width == hDisplays * length && height == vDisplays
      && bitmap.Length == width * height
      && Lay().Valid()
    }

    function Lay(): Layout
    {
      Layout(width, height, length)
    }

    /** The number of modules in the chain. */
    function Modules(): int
    {
      hDisplays * vDisplays
    }

    /** The member length is the digit count clamped to 8; the width and the
        bitmap follow the clamped length. */
    constructor (hDisplays: int, vDisplays: int, length: int)
      requires 1 <= hDisplays && 1 <= vDisplays && 1 <= length
      requires hDisplays * vDisplays * Min(length, 8) <= 255
      ensures Valid() && fresh(bitmap)
      ensures this.hDisplays == hDisplays && this.vDisplays == vDisplays
      ensures var s := ClampedSizing(hDisplays, vDisplays, length);
              this.length == s.length && width == s.width && height == vDisplays && bitmap.Length == s.bitmapSize
      ensures cursorX == 0 && cursorY == 0 && wrap && sent == []
    {
      var len := if length > 8 then 8 else length;
      ClampedSizingConsistent(hDisplays, vDisplays, length);
      this.hDisplays := hDisplays;
      this.vDisplays := vDisplays;
      this.length := len;
      width := hDisplays * len;
      height := vDisplays;
      bitmap := new bv8[hDisplays * vDisplays * len];
      cursorX, cursorY := 0, 0;
      wrap := true;
      sent := [];
      new;
      MulAtLeast(hDisplays, len);
    }

    method SetCursor(x: int, y: int)
      modifies this
      ensures cursorX == x && cursorY == y
      ensures wrap == old(wrap) && sent == old(sent)
    {
      cursorX, cursorY := x, y;
    }

    method SetCursorX(x: int)
      modifies this
      ensures cursorX == x
      ensures cursorY == old(cursorY) && wrap == old(wrap) && sent == old(sent)
    {
      cursorX := x;
    }

    method SetCursorY(y: int)
      modifies this
      ensures cursorY == y
      ensures cursorX == old(cursorX) && wrap == old(wrap) && sent == old(sent)
    {
      cursorY := y;
    }

    method SetTextWrap(w: bool)
      modifies this
      ensures wrap == w
      ensures cursorX == old(cursorX) && cursorY == old(cursorY) && sent == old(sent)
    {
      wrap := w;
    }

    /** fillRect: the clamped rectangle gets the pattern. */
    method FillRect(x: int, y: int, w: int, h: int, pattern: bv8)
      requires Valid()
      modifies bitmap
      ensures bitmap[..] == FillRectCells(old(bitmap[..]), width, height, x, y, w, h, pattern)
    {
      FillRectRows(bitmap, width, height, x, y, w, h, pattern);
    }

    /** fillScreen: every cell gets the pattern and the cursor returns home. */
    method FillScreen(pattern: bv8)
      requires Valid()
      modifies this, bitmap
      ensures forall i :: 0 <= i < bitmap.Length ==> bitmap[i] == pattern
      ensures cursorX == 0 && cursorY == 0
      ensures wrap == old(wrap) && sent == old(sent)
    {
      assert length * Modules() == bitmap.Length;
      Memset(bitmap, 0, length * Modules(), pattern);
      cursorX, cursorY := 0, 0;
    }

    /** begin(): after the driver set-up, which is not modelled, the screen is
        cleared to 0 and the blank buffer is flushed to the chain. */
    method Begin()
      requires Valid()
      modifies this, bitmap
      ensures forall i :: 0 <= i < bitmap.Length ==> bitmap[i] == 0
      ensures sent == old(sent) + FlushBlocks(bitmap[..], length, Modules())
      ensures cursorX == 0 && cursorY == 0 && wrap == old(wrap)
    {
      FillScreen(0);
      Flush();
    }

    /** printFormatted: clears the clamped slot, copies the placed shadow cells
        into it, leaves the cursor after the text and tells whether the text fit. */
    method PrintFormatted(x: int, y: int, w: int, align: int, content: string) returns (fits: bool)
      requires Valid()
      modifies this, bitmap
      ensures bitmap[..] == FormatCells(old(bitmap[..]), Lay(), x, y, w, align, content, MapChar)
      ensures cursorX == FormatCursorX(Lay(), x, y, w, align, content, MapChar)
      ensures cursorY == FormatSlot(Lay(), x, y, w).y
      ensures fits == FormatFits(Lay(), x, y, w, content, MapChar)
      ensures wrap == old(wrap) && sent == old(sent)
    {
      var size;
      fits, size := FormatInto(bitmap, Lay(), x, y, w, align, content, MapChar);
      var sl := FormatSlot(Lay(), x, y, w);
      cursorX := Min(width, CursorAfter(align, sl.x, sl.w, size));
      cursorY := sl.y;
    }

    /** write(c), the character sink behind print. */
    method Write(c: char)
      requires Valid()
      modifies this, bitmap
      ensures Written(bitmap[..], cursorX, cursorY)
              == WriteChar(old(bitmap[..]), width, height, old(cursorX), old(cursorY), wrap, c, MapChar)
      ensures wrap == old(wrap) && sent == old(sent)
    {
      cursorX, cursorY := WriteInto(bitmap, width, height, cursorX, cursorY, wrap, c, MapChar);
    }

    /** The flush write(): one block per digit, sent to the chain in turn. */
    method Flush()
      requires Valid()
      modifies this
      ensures sent == old(sent) + FlushBlocks(bitmap[..], length, Modules())
      ensures cursorX == old(cursorX) && cursorY == old(cursorY) && wrap == old(wrap)
    {
      var modules := Modules();
      assert modules * length == bitmap.Length;
      var digit := 0;
      while digit < length
        invariant 0 <= digit <= length
        invariant sent == old(sent) + FlushBlocks(bitmap[..], length, modules)[..digit]
        invariant cursorX == old(cursorX) && cursorY == old(cursorY) && wrap == old(wrap)
      {
        var block := OutputBlock(bitmap, length, modules, digit, DigitOpcode(length, digit));
        sent := sent + [block];
        digit := digit + 1;
      }
      assert FlushBlocks(bitmap[..], length, modules)[..length] == FlushBlocks(bitmap[..], length, modules);
    }
  }
}
