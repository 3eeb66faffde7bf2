/** The value-level specification shared by the MAX72xx and HT162x digit frame
    buffers: the 8-cell shadow encoder of printFormatted, the alignment and
    truncation policy, argument clamping, the character sink write(c), and the
    layout in which the frame buffer is flushed to the controller chain.
    A frame buffer is a row-major sequence of segment bytes, `width` cells per
    row and `height` rows. */
module DigitFormat {
  import opened Glyphs
  import opened Text
  import opened Ints

  function Min(a: int, b: int): int { if a <= b then a else b }

  // ---------------------------------------------------------------------------
  // The shadow-buffer encoder

  /** Capacity of the local shadow buffer of printFormatted. */
  const ShadowSize := 8

  /** Appends the encoding of one character to the cells emitted so far:
      control characters emit nothing, a decimal separator sets the decimal
      point of the previous cell (or takes a cell of its own when it is first),
      any other character emits its glyph. */
  function Put(cells: seq<bv8>, c: char, glyph: char -> bv8): (r: seq<bv8>)
    ensures |cells| <= |r| <= |cells| + 1
  {
    if IsControl(c) then cells
    else if IsDecimalPoint(c) then
      (if cells == [] then [Dp] else cells[..|cells| - 1] + [cells[|cells| - 1] | Dp])
    else cells + [glyph(c)]
  }

  /** The reference encoding of a whole text, with no capacity limit. */
  function Cells(t: string, glyph: char -> bv8): seq<bv8>
    decreases |t|
  {
    if t == [] then [] else Put(Cells(t[..|t| - 1], glyph), t[|t| - 1], glyph)
  }

  /** The shadow buffer printFormatted fills, and whether its source pointer
      reached the end of the text. */
  datatype Shadow = Shadow(cells: seq<bv8>, consumed: bool)

  /** The encoding loop of printFormatted from source position i: it runs while
      fewer than 8 cells are used and the text has not ended. */
  function EncodeFrom(s: string, i: nat, cells: seq<bv8>, glyph: char -> bv8): Shadow
    requires i <= |s|
    decreases |s| - i
  {
    if |cells| >= ShadowSize || i == |s| || s[i] == '\0' then
      Shadow(cells, i == |s| || s[i] == '\0')
    else
      EncodeFrom(s, i + 1, Put(cells, s[i], glyph), glyph)
  }

  function Encode(s: string, glyph: char -> bv8): Shadow
  {
    EncodeFrom(s, 0, [], glyph)
  }

  /** Encoding a longer prefix never yields fewer cells. */
  lemma {:induction false} CellsMonotone(t: string, i: nat, j: nat, glyph: char -> bv8)
    requires i <= j <= |t|
    ensures |Cells(t[..i], glyph)| <= |Cells(t[..j], glyph)|
    decreases j
  {
    if i < j {
      CellsMonotone(t, i, j - 1, glyph);
      assert t[..j][..j - 1] == t[..j - 1];
    }
  }

  lemma {:induction false} EncodeFromAgrees(s: string, i: nat, glyph: char -> bv8)
    requires i <= |CStr(s)|
    requires |Cells(CStr(s)[..i], glyph)| <= ShadowSize
    ensures var e := EncodeFrom(s, i, Cells(CStr(s)[..i], glyph), glyph);
            && |e.cells| <= ShadowSize
            && (e.consumed ==> e.cells == Cells(CStr(s), glyph))
            && (!e.consumed ==> |e.cells| == ShadowSize)
            && (|Cells(CStr(s), glyph)| < ShadowSize ==> e.consumed)
    decreases |s| - i
  {
    var t := CStr(s);
    var cells := Cells(t[..i], glyph);
    if i == |t| {
      assert t[..i] == t;
    } else {
      assert s[i] == t[i];
      if |cells| >= ShadowSize {
        CellsMonotone(t, i, |t|, glyph);
        assert t[..|t|] == t;
      } else {
        assert t[..i + 1][..i] == t[..i];
        assert Cells(t[..i + 1], glyph) == Put(cells, s[i], glyph);
        EncodeFromAgrees(s, i + 1, glyph);
      }
    }
  }

  /** printFormatted fills at most 8 cells; when it consumes the whole text the
      cells are exactly the reference encoding, otherwise all 8 are in use; a
      text whose encoding needs fewer than 8 cells is always consumed. */
  lemma EncodeAgreesWithCells(s: string, glyph: char -> bv8)
    ensures var e := Encode(s, glyph);
            && |e.cells| <= ShadowSize
            && (e.consumed ==> e.cells == Cells(CStr(s), glyph))
            && (!e.consumed ==> |e.cells| == ShadowSize)
            && (|Cells(CStr(s), glyph)| < ShadowSize ==> e.consumed)
  {
    assert CStr(s)[..0] == [];
    EncodeFromAgrees(s, 0, glyph);
  }

  /** While fewer than 8 cells are in use, the encoder has emitted exactly the
      reference encoding of the text read so far. */
  lemma {:induction false} EncodePrefix(s: string, i: nat, glyph: char -> bv8)
    requires i <= |CStr(s)|
    requires forall j :: 0 <= j < i ==> |Cells(CStr(s)[..j], glyph)| < ShadowSize
    ensures Encode(s, glyph) == EncodeFrom(s, i, Cells(CStr(s)[..i], glyph), glyph)
  {
    var t := CStr(s);
    if i == 0 {
      assert t[..0] == [];
    } else {
      EncodePrefix(s, i - 1, glyph);
      assert |Cells(t[..i - 1], glyph)| < ShadowSize;
      assert s[i - 1] == t[i - 1];
      assert t[..i][..i - 1] == t[..i - 1];
      assert Cells(t[..i], glyph) == Put(Cells(t[..i - 1], glyph), s[i - 1], glyph);
    }
  }

  /** A text without control characters and decimal separators takes one cell
      per character, each holding that character's glyph. */
  lemma {:induction false} CellsOfPlainText(t: string, glyph: char -> bv8)
    requires forall k :: 0 <= k < |t| ==> !IsControl(t[k]) && !IsDecimalPoint(t[k])
    ensures |Cells(t, glyph)| == |t|
    ensures forall k :: 0 <= k < |t| ==> Cells(t, glyph)[k] == glyph(t[k])
    decreases |t|
  {
    if t != [] {
      CellsOfPlainText(t[..|t| - 1], glyph);
    }
  }

  /** Inserting a control character anywhere changes nothing in the encoding. */
  lemma {:induction false} ControlCharTakesNoCell(t: string, k: nat, c: char, glyph: char -> bv8)
    requires k <= |t| && IsControl(c)
    ensures Cells(t[..k] + [c] + t[k..], glyph) == Cells(t, glyph)
    decreases |t|
  {
    if k == |t| {
      assert t[..k] + [c] + t[k..] == t + [c];
      assert (t + [c])[..|t|] == t;
      assert t[..k] == t;
    } else {
      var u := t[..k] + [c] + t[k..];
      var t' := t[..|t| - 1];
      ControlCharTakesNoCell(t', k, c, glyph);
      assert u[..|u| - 1] == t'[..k] + [c] + t'[k..];
      assert u[|u| - 1] == t[|t| - 1];
    }
  }

  /** The decimal point of "1.5" and "1,5" merges into the digit before it:
      both texts occupy two cells. */
  lemma DecimalPointMerges(glyph: char -> bv8)
    ensures Encode("1.5", glyph) == Shadow([glyph('1') | Dp, glyph('5')], true)
    ensures Encode("1,5", glyph) == Shadow([glyph('1') | Dp, glyph('5')], true)
    ensures Encode(".5", glyph) == Shadow([Dp, glyph('5')], true)
  {
    DigitPointDigit('1', '.', '5', glyph);
    DigitPointDigit('1', ',', '5', glyph);
    assert EncodeFrom(".5", 1, [Dp], glyph) == Shadow([Dp, glyph('5')], true);
  }

  lemma DigitPointDigit(a: char, p: char, b: char, glyph: char -> bv8)
    requires !IsControl(a) && !IsDecimalPoint(a) && a != '\0'
    requires IsDecimalPoint(p)
    requires !IsControl(b) && !IsDecimalPoint(b) && b != '\0'
    ensures Encode([a, p, b], glyph) == Shadow([glyph(a) | Dp, glyph(b)], true)
  {
    var s, ga, gb := [a, p, b], glyph(a), glyph(b);
    assert Put([], a, glyph) == [ga];
    assert [ga][..0] == [];
    assert Put([ga], p, glyph) == [ga | Dp];
    assert Put([ga | Dp], b, glyph) == [ga | Dp, gb];
    assert EncodeFrom(s, 3, [ga | Dp, gb], glyph) == Shadow([ga | Dp, gb], true);
    assert EncodeFrom(s, 2, [ga | Dp], glyph) == EncodeFrom(s, 3, [ga | Dp, gb], glyph);
    assert EncodeFrom(s, 1, [ga], glyph) == EncodeFrom(s, 2, [ga | Dp], glyph);
    assert EncodeFrom(s, 0, [], glyph) == EncodeFrom(s, 1, [ga], glyph);
  }

  /** A ninth cell is never started, and a decimal point right after the eighth
      cell is not merged: the text then counts as not consumed. */
  lemma EightCellLimit(glyph: char -> bv8)
    ensures Encode("12345678.", glyph).consumed == false
    ensures |Encode("123456789", glyph).cells| == 8
  {
    EightPlainCells("12345678.", glyph);
    EightPlainCells("123456789", glyph);
  }

  /** A text longer than 8 characters whose first 8 take one cell each fills
      the shadow buffer and is not consumed. */
  lemma EightPlainCells(t: string, glyph: char -> bv8)
    requires |t| > ShadowSize && '\0' !in t
    requires forall k :: 0 <= k < ShadowSize ==> !IsControl(t[k]) && !IsDecimalPoint(t[k])
    ensures !Encode(t, glyph).consumed && |Encode(t, glyph).cells| == ShadowSize
  {
    CStrOfPlain(t);
    forall j | 0 <= j <= ShadowSize
      ensures |Cells(t[..j], glyph)| == j
    {
      CellsOfPlainText(t[..j], glyph);
    }
    EncodePrefix(t, ShadowSize, glyph);
  }

  // ---------------------------------------------------------------------------
  // Clamping, placement and the cursor

  /** A coordinate forced into 0..extent-1. */
  function ClampPos(v: int, extent: int): (r: int)
    requires extent >= 1
    ensures 0 <= r < extent
    ensures 0 <= v < extent ==> r == v
    ensures v < 0 ==> r == 0
    ensures v >= extent ==> r == extent - 1
  {
    if v < 0 then 0 else if v >= extent then extent - 1 else v
  }

  /** A length forced into 0..extent-start. */
  function ClampLen(n: int, extent: int, start: int): (r: int)
    requires 0 <= start <= extent
    ensures 0 <= r <= extent - start
    ensures 0 <= n <= extent - start ==> r == n
    ensures n <= 0 ==> r == 0
  {
    if n < 0 then 0 else if n >= extent - start then extent - start else n
  }

  const AlignLeft := 0
  const AlignCenter := 1
  const AlignRight := 2

  /** Which shadow cells are copied (from src, count of them) and where in the
      slot they land (at dst). */
  datatype Span = Span(src: int, dst: int, count: int)

  /** The alignment and truncation policy of printFormatted for a slot of w
      cells and a text of size cells. Any alignment other than centre or right
      is left. */
  function Placement(align: int, w: int, size: int): (p: Span)
    requires 0 <= w && 0 <= size
    ensures 0 <= p.src && 0 <= p.dst && p.count == Min(w, size)
    ensures p.src + p.count <= size && p.dst + p.count <= w
    // left: the first min(w, size) cells at the start of the slot
    ensures align != AlignCenter && align != AlignRight ==> p.src == 0 && p.dst == 0
    // right: the last min(w, size) cells, ending at the end of the slot
    ensures align == AlignRight ==> p.src + p.count == size && p.dst + p.count == w
    // centre: the middle cells of a long text, or a short text centred in the slot
    ensures align == AlignCenter && w < size ==> p.dst == 0 && 0 <= size - p.count - 2 * p.src <= 1
    ensures align == AlignCenter && size <= w ==> p.src == 0 && 0 <= w - p.count - 2 * p.dst <= 1
  {
    if align == AlignCenter then
      (if w < size then Span((size - w) / 2, 0, w) else Span(0, (w - size) / 2, size))
    else if align == AlignRight then
      (if w < size then Span(size - w, 0, w) else Span(0, w - size, size))
    else
      Span(0, 0, Min(w, size))
  }

  /** The cursor x that printFormatted computes before clamping it to the
      display width. */
  function CursorAfter(align: int, x: int, w: int, size: int): (nx: int)
    requires 0 <= w && 0 <= size
    // left and a centred short text: just after the last copied cell
    ensures align != AlignRight && !(align == AlignCenter && w < size) ==>
              nx == x + Placement(align, w, size).dst + Placement(align, w, size).count
    // right: at the end of the slot
    ensures align == AlignRight ==> nx == x + w
    // centre with truncation: x + size - offs, past the end of the slot
    ensures align == AlignCenter && w < size ==> nx == x + size - Placement(align, w, size).src && nx >= x + w
  {
    if align == AlignCenter then
      (if w < size then x + size - (size - w) / 2 else x + size + (w - size) / 2)
    else if align == AlignRight then x + w
    else x + Min(w, size)
  }

  /** The truncated centre cursor can lie beyond the slot: "12345678" centred
      into 2 cells at x = 0 leaves the cursor at 5. */
  lemma CenterCursorOvershoots()
    ensures CursorAfter(AlignCenter, 0, 2, 8) == 5
  {
  }

  // ---------------------------------------------------------------------------
  // The frame buffer as a value

  /** Geometry of a digit frame buffer: width = horizontal modules * length
      digits, height = vertical modules. Its bitmap holds width * height cells,
      which must fit the controller code's byte-sized bitmapSize. */
  datatype Layout = Layout(width: int, height: int, length: int)
  {
    predicate Valid() {
      1 <= length <= width && 1 <= height && width * height <= 255
    }
  }

  lemma RowBound(lay: Layout, y: int, x: int)
    requires lay.Valid() && 0 <= y < lay.height && 0 <= x <= lay.width
    ensures 0 <= y * lay.length + x <= y * lay.width + x <= lay.width * lay.height
  {
    assert y * lay.length <= y * lay.width;
    assert y * lay.width + lay.width == (y + 1) * lay.width;
    assert (y + 1) * lay.width <= lay.height * lay.width;
  }

  /** The clamped arguments of printFormatted. */
  datatype Slot = Slot(x: int, y: int, w: int)

  function FormatSlot(lay: Layout, x: int, y: int, w: int): (sl: Slot)
    requires lay.Valid()
    ensures 0 <= sl.x < lay.width && 0 <= sl.y < lay.height && 0 <= sl.w <= lay.width - sl.x
  {
    var x' := ClampPos(x, lay.width);
    Slot(x', ClampPos(y, lay.height), ClampLen(w, lay.width, x'))
  }

  /** The bitmap after printFormatted: the w cells of row y from x are cleared
      (row start y * width), then the placed cells are copied into the slot,
      whose row start is computed as y * length. The two agree only when
      there is one module per row. */
  function FormatCells(cells: seq<bv8>, lay: Layout, x: int, y: int, w: int, align: int,
                       content: string, glyph: char -> bv8): (r: seq<bv8>)
    requires lay.Valid() && |cells| == lay.width * lay.height
    ensures |r| == |cells|
  {
    var sl := FormatSlot(lay, x, y, w);
    var sh := Encode(content, glyph);
    EncodeAgreesWithCells(content, glyph);
    var p := Placement(align, sl.w, |sh.cells|);
    var clearAt := sl.y * lay.width + sl.x;
    var copyAt := sl.y * lay.length + sl.x + p.dst;
    seq(|cells|, i requires 0 <= i < |cells| =>
      if copyAt <= i < copyAt + p.count then sh.cells[p.src + i - copyAt]
      else if clearAt <= i < clearAt + sl.w then 0
      else cells[i])
  }

  /** Every cell printFormatted clears or copies lies inside the bitmap. */
  lemma FormatInBounds(lay: Layout, x: int, y: int, w: int, align: int, content: string, glyph: char -> bv8)
    requires lay.Valid()
    ensures var sl := FormatSlot(lay, x, y, w);
            var p := Placement(align, sl.w, |Encode(content, glyph).cells|);
            && sl.y * lay.width + sl.x + sl.w <= lay.width * lay.height
            && 0 <= sl.y * lay.length + sl.x + p.dst
            && sl.y * lay.length + sl.x + p.dst + p.count <= lay.width * lay.height
  {
    var sl := FormatSlot(lay, x, y, w);
    RowBound(lay, sl.y, sl.x + sl.w);
  }

  /** The value printFormatted returns: the text was consumed and fits. */
  function FormatFits(lay: Layout, x: int, y: int, w: int, content: string, glyph: char -> bv8): bool
    requires lay.Valid()
  {
    var sh := Encode(content, glyph);
    sh.consumed && |sh.cells| <= FormatSlot(lay, x, y, w).w
  }

  /** The cursor x the MAX72xx printFormatted leaves, never beyond the width. */
  function FormatCursorX(lay: Layout, x: int, y: int, w: int, align: int, content: string, glyph: char -> bv8): (cx: int)
    requires lay.Valid()
    ensures FormatSlot(lay, x, y, w).x <= cx <= lay.width
  {
    var sl := FormatSlot(lay, x, y, w);
    Min(lay.width, CursorAfter(align, sl.x, sl.w, |Encode(content, glyph).cells|))
  }

  /** The fit result: true exactly when the whole text was encoded and its
      cells fit the clamped slot; in particular a text that fits is shown
      without truncation. */
  lemma FitsMeansWhole(lay: Layout, x: int, y: int, w: int, align: int, content: string, glyph: char -> bv8)
    requires lay.Valid()
    ensures FormatFits(lay, x, y, w, content, glyph) ==>
              Encode(content, glyph).cells == Cells(CStr(content), glyph)
              && Placement(align, FormatSlot(lay, x, y, w).w, |Encode(content, glyph).cells|).count
                 == |Cells(CStr(content), glyph)|
  {
    EncodeAgreesWithCells(content, glyph);
  }

  /** With one module per row, printFormatted changes only the clamped slot of
      its row: everything outside it is unchanged. */
  lemma FormatStaysInSlot(cells: seq<bv8>, lay: Layout, x: int, y: int, w: int, align: int,
                          content: string, glyph: char -> bv8, i: int)
    requires lay.Valid() && |cells| == lay.width * lay.height && lay.length == lay.width
    requires 0 <= i < |cells|
    requires var sl := FormatSlot(lay, x, y, w);
             !(sl.y * lay.width + sl.x <= i < sl.y * lay.width + sl.x + sl.w)
    ensures FormatCells(cells, lay, x, y, w, align, content, glyph)[i] == cells[i]
  {
  }

  /** With two modules per row the copy lands in the wrong row: "1" printed at
      row 1 of a 16 x 2 buffer of 8-digit modules is written to cell 8 (row 0),
      while cell 16, the start of row 1, is only cleared. */
  lemma FormatRowMismatch(cells: seq<bv8>, glyph: char -> bv8)
    requires |cells| == 32
    ensures FormatCells(cells, Layout(16, 2, 8), 0, 1, 1, AlignLeft, "1", glyph)[8] == glyph('1')
    ensures FormatCells(cells, Layout(16, 2, 8), 0, 1, 1, AlignLeft, "1", glyph)[16] == 0
  {
    assert Encode("1", glyph).cells == [glyph('1')];
  }

  // ---------------------------------------------------------------------------
  // fillRect

  /** The clamped rectangle of fillRect. */
  datatype Rect = Rect(x: int, y: int, w: int, h: int)

  function FillRectArea(width: int, height: int, x: int, y: int, w: int, h: int): (r: Rect)
    requires width >= 1 && height >= 1
    ensures 0 <= r.x < width && 0 <= r.y < height
    ensures 0 <= r.w <= width - r.x && 0 <= r.h <= height - r.y
    ensures w <= 0 || h <= 0 ==> r.w == 0 || r.h == 0
  {
    var x' := ClampPos(x, width);
    var y' := ClampPos(y, height);
    Rect(x', y', ClampLen(w, width, x'), ClampLen(h, height, y'))
  }

  predicate InRect(r: Rect, row: int, col: int) {
    r.y <= row < r.y + r.h && r.x <= col < r.x + r.w
  }

  /** The bitmap after fillRect: the clamped rectangle holds the pattern, every
      other cell is unchanged. */
  function FillRectCells(cells: seq<bv8>, width: int, height: int, x: int, y: int, w: int, h: int,
                         pattern: bv8): (r: seq<bv8>)
    requires width >= 1 && height >= 1 && |cells| == width * height
    ensures |r| == |cells|
  {
    var a := FillRectArea(width, height, x, y, w, h);
    seq(|cells|, i requires 0 <= i < |cells| =>
      if InRect(a, i / width, i % width) then pattern else cells[i])
  }

  /** A rectangle with a negative or zero side fills nothing. */
  lemma FillEmptyRect(cells: seq<bv8>, width: int, height: int, x: int, y: int, w: int, h: int, pattern: bv8)
    requires width >= 1 && height >= 1 && |cells| == width * height
    requires w <= 0 || h <= 0
    ensures FillRectCells(cells, width, height, x, y, w, h, pattern) == cells
  {
  }

  /** Row and column of a cell index. */
  lemma RowCol(row: int, col: int, width: int)
    requires width >= 1 && 0 <= row && 0 <= col < width
    ensures (row * width + col) / width == row && (row * width + col) % width == col
  {
    var n := row * width + col;
    var q, r := n / width, n % width;
    assert q * width + r == row * width + col;
    assert (q - row) * width == q * width - row * width;
    assert (row - q) * width == row * width - q * width;
    if q > row {
      MulAtLeast(q - row, width);
    } else if q < row {
      MulAtLeast(row - q, width);
    }
  }

  lemma MulAtLeast(k: int, w: int)
    requires k >= 1 && w >= 1
    ensures k * w >= w
  {
  }

  lemma MulMono(a: int, b: int, w: int)
    requires a <= b && w >= 0
    ensures a * w <= b * w
  {
    assert b * w - a * w == (b - a) * w;
  }

  /** The cells row * width + x .. row * width + x + w - 1 are exactly those of
      row `row` whose column lies in x .. x + w - 1. */
  lemma RowSpan(i: int, row: int, width: int, x: int, w: int)
    requires width >= 1 && 0 <= i && 0 <= row && 0 <= x && 0 <= w && x + w <= width
    ensures (row * width + x <= i < row * width + x + w) <==> (i / width == row && x <= i % width < x + w)
  {
    var q, m := i / width, i % width;
    assert i == q * width + m && 0 <= m < width;
    if q < row {
      MulMono(q + 1, row, width);
      assert (q + 1) * width == q * width + width;
    } else if q > row {
      MulMono(row + 1, q, width);
      assert (row + 1) * width == row * width + width;
    }
  }

  /** The index of an on-screen cell lies inside the bitmap. */
  lemma CellIndex(width: int, height: int, row: int, col: int)
    requires 0 <= row < height && 0 <= col < width
    ensures 0 <= row * width + col < width * height
  {
    assert row * width + width == (row + 1) * width;
    assert (row + 1) * width <= height * width;
  }

  // ---------------------------------------------------------------------------
  // The character sink write(c)

  /** Frame-buffer cells and cursor after write(c). */
  datatype Written = Written(cells: seq<bv8>, x: int, y: int)

  /** A cursor position in cells. */
  datatype Pos = Pos(x: int, y: int)

  /** The cursor after the CR/LF and wrap rules, before anything is drawn.
      The row is an `int16_t`, so stepping past 32767 wraps to -32768. */
  function LinePos(width: int, x: int, y: int, wrap: bool, c: char): (p: Pos)
    ensures c == '\r' && !(wrap && 0 >= width) ==> p == Pos(0, y)
    ensures c == '\n' && !(wrap && 0 >= width) ==> p == Pos(0, Int16(y + 1))
    ensures c != '\r' && c != '\n' && !(wrap && x >= width) ==> p == Pos(x, y)
    ensures c != '\r' && c != '\n' && wrap && x >= width ==> p == Pos(0, Int16(y + 1))
  {
    var p1 := if c == '\r' then Pos(0, y) else if c == '\n' then Pos(0, Int16(y + 1)) else Pos(x, y);
    if wrap && p1.x >= width then Pos(0, Int16(p1.y + 1)) else p1
  }

  predicate OnScreen(width: int, height: int, p: Pos) {
    0 <= p.x < width && 0 <= p.y < height
  }

  /** write(c) of both digit controllers with the given glyph encoder. */
  function WriteChar(cells: seq<bv8>, width: int, height: int, x: int, y: int, wrap: bool,
                     c: char, glyph: char -> bv8): (r: Written)
    requires width >= 1 && height >= 1 && |cells| == width * height
    ensures |r.cells| == |cells|
  {
    var p := LinePos(width, x, y, wrap, c);
    if p.x >= width || p.y >= height then Written(cells, p.x, p.y)
    else if p.x < 0 || p.y < 0 then Written(cells, p.x + CharLen(c, p.x == 0), p.y)
    else
      CellIndex(width, height, p.y, p.x);
      var index := p.y * width + p.x;
      if IsControl(c) then Written(cells, p.x, p.y)
      else if IsDecimalPoint(c) then
        (if p.x == 0 then Written(cells[index := Dp], p.x + 1, p.y)
         else Written(cells[index - 1 := cells[index - 1] | Dp], p.x, p.y))
      else Written(cells[index := glyph(c)], p.x + 1, p.y)
  }

  /** A line feed on row 32767 wraps the `int16_t` row to -32768; the next
      printable character is then above the display, draws nothing and only
      moves the cursor one column on. */
  lemma RowWrapsToNegative(glyph: char -> bv8)
    ensures LinePos(1, 0, 32767, false, '\n') == Pos(0, -32768)
    ensures var r := WriteChar([0], 1, 1, 0, 32767, false, '\n', glyph);
            && r == Written([0], 0, -32768)
            && WriteChar(r.cells, 1, 1, r.x, r.y, false, 'A', glyph) == Written([0], 1, -32768)
  {
  }

  /** Off the viewport nothing is drawn; to the left of or above it the cursor
      still advances by the character's width, beyond it the cursor stays. */
  lemma WriteOffScreen(cells: seq<bv8>, width: int, height: int, x: int, y: int, wrap: bool,
                       c: char, glyph: char -> bv8)
    requires width >= 1 && height >= 1 && |cells| == width * height
    requires !OnScreen(width, height, LinePos(width, x, y, wrap, c))
    ensures var p := LinePos(width, x, y, wrap, c);
            var r := WriteChar(cells, width, height, x, y, wrap, c, glyph);
            && r.cells == cells && r.y == p.y
            && (p.x >= width || p.y >= height ==> r.x == p.x)
            && (p.x < width && p.y < height ==> r.x == p.x + CharLen(c, p.x == 0))
  {
  }

  /** On screen, a printable character other than a decimal separator is drawn
      at the cursor and the cursor moves one cell on; no other cell changes. */
  lemma WriteDrawsGlyph(cells: seq<bv8>, width: int, height: int, x: int, y: int, wrap: bool,
                        c: char, glyph: char -> bv8)
    requires width >= 1 && height >= 1 && |cells| == width * height
    requires OnScreen(width, height, LinePos(width, x, y, wrap, c))
    requires !IsControl(c) && !IsDecimalPoint(c)
    ensures var p := LinePos(width, x, y, wrap, c);
            var r := WriteChar(cells, width, height, x, y, wrap, c, glyph);
            && r.x == p.x + 1 && r.y == p.y
            && 0 <= p.y * width + p.x < |cells|
            && r.cells == cells[p.y * width + p.x := glyph(c)]
  {
    var p := LinePos(width, x, y, wrap, c);
    CellIndex(width, height, p.y, p.x);
  }

  /** On screen and not at the row start, a decimal separator sets the decimal
      point of the previous cell and leaves the cursor where it is. */
  lemma WriteMergesDecimalPoint(cells: seq<bv8>, width: int, height: int, x: int, y: int, wrap: bool,
                                c: char, glyph: char -> bv8)
    requires width >= 1 && height >= 1 && |cells| == width * height
    requires OnScreen(width, height, LinePos(width, x, y, wrap, c))
    requires LinePos(width, x, y, wrap, c).x > 0
    requires IsDecimalPoint(c)
    ensures var p := LinePos(width, x, y, wrap, c);
            var r := WriteChar(cells, width, height, x, y, wrap, c, glyph);
            var i := p.y * width + p.x - 1;
            && r.x == p.x && r.y == p.y
            && 0 <= i < |cells|
            && r.cells == cells[i := cells[i] | Dp]
  {
    var p := LinePos(width, x, y, wrap, c);
    CellIndex(width, height, p.y, p.x);
  }

  // ---------------------------------------------------------------------------
  // The flush layout

  /** One block sent to the controller chain: an (opcode, byte) pair per
      module, the modules taken from the last to the first, each byte read at
      `offset` within its module's `stride` bytes. */
  function FlushBlock(cells: seq<bv8>, stride: int, modules: int, offset: int, opcode: bv8): (b: seq<bv8>)
    requires 1 <= stride && 0 <= modules && 0 <= offset < stride && modules * stride <= |cells|
    ensures |b| == 2 * modules
  {
    seq(2 * modules, i requires 0 <= i < 2 * modules =>
      if i % 2 == 0 then opcode
      else
        var k := modules - 1 - i / 2;
        CellIndex(stride, modules, k, offset);
        cells[k * stride + offset])
  }

  /** Every pair of a block starts with the opcode, and the pair of module k
      (counted from the first) comes at position modules - 1 - k. */
  lemma FlushBlockPairs(cells: seq<bv8>, stride: int, modules: int, offset: int, opcode: bv8, k: int)
    requires 1 <= stride && 0 <= modules && 0 <= offset < stride && modules * stride <= |cells|
    requires 0 <= k < modules
    ensures var b := FlushBlock(cells, stride, modules, offset, opcode);
            var j := modules - 1 - k;
            && 0 <= k * stride + offset < |cells|
            && b[2 * j] == opcode && b[2 * j + 1] == cells[k * stride + offset]
  {
    CellIndex(stride, modules, k, offset);
    var j := modules - 1 - k;
    assert (2 * j + 1) / 2 == j && (2 * j + 1) % 2 == 1;
    assert (2 * j) % 2 == 0;
  }

  /** One step of the flush loop's offset, which starts at modules * stride +
      offset and moves down by stride while above offset. */
  lemma FlushStep(n: int, stride: int, offset: int)
    requires 0 <= n && 1 <= stride && 0 <= offset
    ensures n * stride + offset > offset <==> n > 0
    ensures n * stride + offset - stride == (n - 1) * stride + offset
  {
    if n > 0 {
      MulAtLeast(n, stride);
    }
  }

  /** The block grows pair by pair: its first p + 1 pairs are its first p
      pairs followed by the pair of module modules - 1 - p. */
  lemma FlushBlockPrefix(cells: seq<bv8>, stride: int, modules: int, offset: int, opcode: bv8, p: int)
    requires 1 <= stride && 0 <= modules && 0 <= offset < stride && modules * stride <= |cells|
    requires 0 <= p < modules
    ensures 0 <= (modules - 1 - p) * stride + offset < |cells|
    ensures var b := FlushBlock(cells, stride, modules, offset, opcode);
            b[..2 * p + 2] == b[..2 * p] + [opcode, cells[(modules - 1 - p) * stride + offset]]
  {
    var b := FlushBlock(cells, stride, modules, offset, opcode);
    FlushBlockPairs(cells, stride, modules, offset, opcode, modules - 1 - p);
    assert b[..2 * p + 2] == b[..2 * p] + [b[2 * p], b[2 * p + 1]];
  }

  /** A buffer that holds the opcode and the right byte in every pair is the
      block. */
  lemma FlushBlockFromPairs(b: seq<bv8>, cells: seq<bv8>, stride: int, modules: int, offset: int, opcode: bv8)
    requires 1 <= stride && 0 <= modules && 0 <= offset < stride && modules * stride <= |cells|
    requires |b| == 2 * modules
    requires forall j :: 0 <= j < modules ==>
               && 0 <= (modules - 1 - j) * stride + offset < |cells|
               && b[2 * j] == opcode && b[2 * j + 1] == cells[(modules - 1 - j) * stride + offset]
    ensures b == FlushBlock(cells, stride, modules, offset, opcode)
  {
    var f := FlushBlock(cells, stride, modules, offset, opcode);
    forall i | 0 <= i < |b|
      ensures b[i] == f[i]
    {
      var j := i / 2;
      assert i == 2 * j || i == 2 * j + 1;
    }
  }

  /** The register of digit d on a module of `length` digits. */
  function DigitOpcode(length: int, d: int): (op: bv8)
    requires 0 <= d < length <= 8
    ensures 1 <= op as int <= 8 && op as int == length - d
  {
    (length - d) as bv8
  }

  /** The whole flush: one block per digit, digit d of every module sent
      with opcode digit0 + length - d - 1, where digit0 is 1. */
  function FlushBlocks(cells: seq<bv8>, length: int, modules: int): (bs: seq<seq<bv8>>)
    requires 1 <= length <= 8 && 0 <= modules && modules * length <= |cells|
    ensures |bs| == length
  {
    seq(length, d requires 0 <= d < length => FlushBlock(cells, length, modules, d, DigitOpcode(length, d)))
  }
}
