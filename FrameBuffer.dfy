/** The in-place frame-buffer procedures that the MAX72xx and HT162x digit
    displays share line for line (their code differs only in the glyph
    encoder): memset and memcpy on the bitmap, fillRect, the body of
    printFormatted and the character sink write(c); and the output-buffer
    loop of the flush, which the MAX72xx digit and matrix displays share.
    Each is proved against the value-level specification in DigitFormat. */
module FrameBuffer {
  import opened Glyphs
  import opened DigitFormat
  import opened Ints

  /** memset of `count` cells from `at`. */
  method Memset(a: array<bv8>, at: int, count: int, pattern: bv8)
    requires 0 <= at && 0 <= count && at + count <= a.Length
    modifies a
    ensures forall i :: 0 <= i < a.Length ==>
              a[i] == if at <= i < at + count then pattern else old(a[i])
  {
    var k := 0;
    while k < count
      invariant 0 <= k <= count
      invariant forall i :: 0 <= i < a.Length ==>
                  a[i] == if at <= i < at + k then pattern else old(a[i])
    {
      a[at + k] := pattern;
      k := k + 1;
    }
  }

  /** memcpy of `src` to the cells from `at`. */
  method Memcpy(a: array<bv8>, at: int, src: seq<bv8>)
    requires 0 <= at && at + |src| <= a.Length
    modifies a
    ensures forall i :: 0 <= i < a.Length ==>
              a[i] == if at <= i < at + |src| then src[i - at] else old(a[i])
  {
    var k := 0;
    while k < |src|
      invariant 0 <= k <= |src|
      invariant forall i :: 0 <= i < a.Length ==>
                  a[i] == if at <= i < at + k then src[i - at] else old(a[i])
    {
      a[at + k] := src[k];
      k := k + 1;
    }
  }

  /** fillRect: clamps the rectangle, then sets it row by row. */
  method FillRectRows(a: array<bv8>, width: int, height: int, x: int, y: int, w: int, h: int, pattern: bv8)
    requires width >= 1 && height >= 1 && a.Length == width * height
    modifies a
    ensures a[..] == FillRectCells(old(a[..]), width, height, x, y, w, h, pattern)
  {
    var r := FillRectArea(width, height, x, y, w, h);
    ghost var before := a[..];
    var yy := r.y;
    while yy < r.y + r.h
      invariant r.y <= yy <= r.y + r.h
      invariant forall i :: 0 <= i < a.Length ==>
                  a[i] == if InRect(Rect(r.x, r.y, r.w, yy - r.y), i / width, i % width)
                          then pattern else before[i]
    {
      MulMono(yy + 1, height, width);
      assert (yy + 1) * width == yy * width + width;
      Memset(a, yy * width + r.x, r.w, pattern);
      forall i | 0 <= i < a.Length
        ensures (yy * width + r.x <= i < yy * width + r.x + r.w)
                <==> (i / width == yy && r.x <= i % width < r.x + r.w)
      {
        RowSpan(i, yy, width, r.x, r.w);
      }
      yy := yy + 1;
    }
    assert a[..] == FillRectCells(before, width, height, x, y, w, h, pattern);
  }

  /** The shadow-buffer loop of printFormatted: encodes `content` into at
      most 8 cells, stopping at the end of the text or at a NUL. */
  method EncodeShadow(content: string, glyph: char -> bv8) returns (cells: seq<bv8>, consumed: bool)
    ensures Shadow(cells, consumed) == Encode(content, glyph)
  {
    var shadow := new bv8[ShadowSize];
    var d := 0;
    var i := 0;
    while d < ShadowSize && i < |content| && content[i] != '\0'
      invariant 0 <= d <= ShadowSize && 0 <= i <= |content|
      invariant EncodeFrom(content, i, shadow[..d], glyph) == Encode(content, glyph)
      decreases |content| - i
    {
      var c := content[i];
      ghost var prev := shadow[..d];
      if IsControl(c) {
      } else if IsDecimalPoint(c) {
        if d == 0 {
          shadow[d] := Dp;
          d := d + 1;
        } else {
          shadow[d - 1] := shadow[d - 1] | Dp;
        }
      } else {
        shadow[d] := glyph(c);
        d := d + 1;
      }
      assert shadow[..d] == Put(prev, c, glyph);
      i := i + 1;
    }
    cells := shadow[..d];
    consumed := i == |content| || content[i] == '\0';
  }

  /** Clearing the slot and then copying the placed cells leaves the bitmap
      as FormatCells describes it. */
  lemma FormatCellsFrom(before: seq<bv8>, cleared: seq<bv8>, final: seq<bv8>, lay: Layout,
                        x: int, y: int, w: int, align: int, content: string, glyph: char -> bv8)
    requires lay.Valid() && |before| == lay.width * lay.height
    requires |cleared| == |before| && |final| == |before|
    requires var sl := FormatSlot(lay, x, y, w);
             forall i :: 0 <= i < |cleared| ==>
               cleared[i] == if sl.y * lay.width + sl.x <= i < sl.y * lay.width + sl.x + sl.w then 0 else before[i]
    requires var sl := FormatSlot(lay, x, y, w);
             var cells := Encode(content, glyph).cells;
             var p := Placement(align, sl.w, |cells|);
             var at := sl.y * lay.length + sl.x + p.dst;
             forall i :: 0 <= i < |final| ==>
               final[i] == if at <= i < at + p.count then cells[p.src + i - at] else cleared[i]
    ensures final == FormatCells(before, lay, x, y, w, align, content, glyph)
  {
    EncodeAgreesWithCells(content, glyph);
    var target := FormatCells(before, lay, x, y, w, align, content, glyph);
    assert forall i :: 0 <= i < |final| ==> final[i] == target[i];
  }

  /** The frame-buffer part of printFormatted: clears the clamped slot,
      copies the placed shadow cells into it and reports whether the text
      fit, together with the number of shadow cells used. */
  method FormatInto(a: array<bv8>, lay: Layout, x: int, y: int, w: int, align: int,
                    content: string, glyph: char -> bv8) returns (fits: bool, size: int)
    requires lay.Valid() && a.Length == lay.width * lay.height
    modifies a
    ensures a[..] == FormatCells(old(a[..]), lay, x, y, w, align, content, glyph)
    ensures size == |Encode(content, glyph).cells| && 0 <= size <= ShadowSize
    ensures fits == FormatFits(lay, x, y, w, content, glyph)
  {
    ghost var before := a[..];
    var sl := FormatSlot(lay, x, y, w);
    FormatInBounds(lay, x, y, w, align, content, glyph);
    Memset(a, sl.y * lay.width + sl.x, sl.w, 0);
    ghost var cleared := a[..];
    var cells, consumed := EncodeShadow(content, glyph);
    EncodeAgreesWithCells(content, glyph);
    var p := Placement(align, sl.w, |cells|);
    Memcpy(a, sl.y * lay.length + sl.x + p.dst, cells[p.src..p.src + p.count]);
    FormatCellsFrom(before, cleared, a[..], lay, x, y, w, align, content, glyph);
    size := |cells|;
    fits := consumed && size <= sl.w;
  }

  /** write(c): applies CR, LF and wrap to the cursor, then draws the
      character if the cursor is on screen; returns the new cursor. */
  method WriteInto(a: array<bv8>, width: int, height: int, x: int, y: int, wrap: bool,
                   c: char, glyph: char -> bv8) returns (nx: int, ny: int)
    requires width >= 1 && height >= 1 && a.Length == width * height
    modifies a
    ensures Written(a[..], nx, ny) == WriteChar(old(a[..]), width, height, x, y, wrap, c, glyph)
  {
    nx, ny := x, y;
    if c == '\r' {
      nx := 0;
    } else if c == '\n' {
      nx := 0;
      ny := Int16(ny + 1);
    }
    if wrap && nx >= width {
      nx := 0;
      ny := Int16(ny + 1);
    }
    if nx >= width || ny >= height {
      return;
    }
    if nx < 0 || ny < 0 {
      nx := nx + CharLen(c, nx == 0);
      return;
    }
    CellIndex(width, height, ny, nx);
    var index := ny * width + nx;
    if IsControl(c) {
      return;
    } else if IsDecimalPoint(c) {
      if nx == 0 {
        a[index] := Dp;
      } else {
        a[index - 1] := a[index - 1] | Dp;
        nx := nx - 1;
      }
    } else {
      a[index] := glyph(c);
    }
    nx := nx + 1;
  }

  /** Fills the output buffer of one flush block: for the modules from the
      last to the first, the opcode and the byte at `offset` within the
      module's `stride` bytes. The offset walks down from modules * stride +
      offset in steps of stride while it stays above `offset`. */
  method OutputBlock(a: array<bv8>, stride: int, modules: int, offset: int, opcode: bv8)
    returns (block: seq<bv8>)
    requires 1 <= stride && 1 <= modules && 0 <= offset < stride && modules * stride == a.Length
    ensures block == FlushBlock(a[..], stride, modules, offset, opcode)
  {
    ghost var whole := FlushBlock(a[..], stride, modules, offset, opcode);
    block := [];
    var start := modules * stride + offset;
    var p := 0;
    while start > offset
      invariant 0 <= p <= modules
      invariant start == (modules - p) * stride + offset
      invariant block == whole[..2 * p]
      decreases start
    {
      FlushStep(modules - p, stride, offset);
      start := start - stride;
      FlushBlockPrefix(a[..], stride, modules, offset, opcode, p);
      block := block + [opcode, a[start]];
      p := p + 1;
    }
    FlushStep(modules - p, stride, offset);
    assert whole[..2 * modules] == whole;
  }
}
