/** The MAX72xx LED-matrix frame buffer: hDisplays x vDisplays modules of
    8 x 8 pixels. The bitmap holds 8 bytes per module, one byte per pixel
    column of a band of 8 rows, bit k for row k of the band. A pixel passes
    through the canvas rotation, then the module placement table, then the
    rotation of the module it lands on, before one bit is set or cleared.
    The canvas rotation and the rotated canvas size belong to the Adafruit
    GFX base class, which is not part of this model; they are held here as a
    field set the way that class sets them. */
module Max72xxMatrixDisplay {
  import opened DigitFormat
  import opened FrameBuffer
  import opened Ints

  datatype Pixel = Pixel(x: int, y: int)

  /** Canvas width and height as the rotated canvas reports them. */
  function RotatedWidth(rotation: int, w: int, h: int): int { if rotation % 2 == 1 then h else w }
  function RotatedHeight(rotation: int, w: int, h: int): int { if rotation % 2 == 1 then w else h }

  /** The canvas rotation step of drawPixel on the raw coordinates: x stays a
      16-bit value, y is truncated to 8 bits, and a swap passes x through the
      8-bit temporary. */
  function CanvasRotate(rotation: int, width: int, height: int, xx: int, yy: int): (p: Pixel)
    requires 0 <= rotation < 4
    ensures 0 <= p.y < 256
    ensures rotation == 0 ==> p == Pixel(xx, Byte(yy))
  {
    var y0 := Byte(yy);
    if rotation == 0 then Pixel(xx, y0)
    else
      var x1 := if rotation >= 2 then Int16(width - 1 - xx) else xx;
      var y1 := if rotation == 1 || rotation == 2 then Byte(height - 1 - y0) else y0;
      if rotation % 2 == 1 then Pixel(y1, Byte(x1)) else Pixel(x1, y1)
  }

  /** The rotation of one module on its local 8 x 8 coordinates: flip x for
      r >= 2, flip y for r = 1 or 2, swap for odd r. */
  function ModuleRotate(r: int, x: int, y: int): (p: Pixel)
    requires 0 <= x < 8 && 0 <= y < 8
    ensures 0 <= p.x < 8 && 0 <= p.y < 8
  {
    var x1 := if r >= 2 then 7 - x else x;
    var y1 := if r == 1 || r == 2 then 7 - y else y;
    if r % 2 == 1 then Pixel(y1, x1) else Pixel(x1, y1)
  }

  /** Where drawPixel writes: nowhere, or one bit of one bitmap byte. */
  datatype Target = Ignored | Bit(index: int, bit: int)

  /** A placement table that maps every panel slot to an existing module. */
  predicate Placements(positions: seq<int>, displays: int)
  {
    forall i :: 0 <= i < |positions| ==> 0 <= positions[i] < displays
  }

  /** The panel slot of an on-canvas pixel: 8 x 8 blocks, row by row. */
  function SlotIndex(hDisplays: int, vDisplays: int, g: Pixel): (s: int)
    requires 1 <= hDisplays && 1 <= vDisplays
    requires 0 <= g.x < 8 * hDisplays && 0 <= g.y < 8 * vDisplays
    ensures 0 <= s < hDisplays * vDisplays
  {
    CellIndex(hDisplays, vDisplays, g.y / 8, g.x / 8);
    g.x / 8 + hDisplays * (g.y / 8)
  }

  /** The canvas pixel of local pixel l of module `display`: modules are
      laid out hDisplays to a row in the order of their numbers. */
  function ModulePixel(hDisplays: int, vDisplays: int, display: int, l: Pixel): (p: Pixel)
    requires 1 <= hDisplays && 1 <= vDisplays && 0 <= display < hDisplays * vDisplays
    requires 0 <= l.x < 8 && 0 <= l.y < 8
    ensures 0 <= p.x < 8 * hDisplays && 0 <= p.y < 8 * vDisplays
    ensures p.y % 8 == l.y
  {
    ModuleBand(hDisplays, vDisplays, display, l.x, l.y);
    var d := display / hDisplays;
    Pixel(l.x + (display - d * hDisplays) * 8, l.y + d * 8)
  }

  /** The byte holding a canvas pixel: its column within its band of 8 rows. */
  function ByteIndex(hDisplays: int, vDisplays: int, p: Pixel): (i: int)
    requires 1 <= hDisplays && 1 <= vDisplays
    requires 0 <= p.x < 8 * hDisplays && 0 <= p.y < 8 * vDisplays
    ensures 0 <= i < 8 * hDisplays * vDisplays
  {
    CellIndex(8 * hDisplays, vDisplays, p.y / 8, p.x);
    assert 8 * hDisplays * (p.y / 8) == (p.y / 8) * (8 * hDisplays);
    p.x + 8 * hDisplays * (p.y / 8)
  }

  /** The bit drawPixel(xx, yy, ·) addresses, for hDisplays x vDisplays
      modules with the given placement and rotation tables. */
  function PixelTarget(hDisplays: int, vDisplays: int, positions: seq<int>, rotations: seq<int>,
                       rotation: int, xx: int, yy: int): (t: Target)
    requires 1 <= hDisplays && 1 <= vDisplays && 0 <= rotation < 4
    requires |positions| == |rotations| == hDisplays * vDisplays
    requires Placements(positions, hDisplays * vDisplays)
    ensures t.Bit? ==> 0 <= t.index < 8 * hDisplays * vDisplays && 0 <= t.bit < 8
  {
    var w, h := 8 * hDisplays, 8 * vDisplays;
    var g := CanvasRotate(rotation, RotatedWidth(rotation, w, h), RotatedHeight(rotation, w, h), xx, yy);
    if g.x < 0 || g.x >= w || g.y >= h then Ignored
    else
      var display := positions[SlotIndex(hDisplays, vDisplays, g)];
      var p := ModulePixel(hDisplays, vDisplays, display, ModuleRotate(rotations[display], g.x % 8, g.y % 8));
      Bit(ByteIndex(hDisplays, vDisplays, p), p.y % 8)
  }

  /** A module's pixel lands inside the canvas, in the band of the module's row. */
  lemma ModuleBand(hDisplays: int, vDisplays: int, display: int, lx: int, ly: int)
    requires 1 <= hDisplays && 1 <= vDisplays && 0 <= display < hDisplays * vDisplays
    requires 0 <= lx < 8 && 0 <= ly < 8
    ensures var d := display / hDisplays;
            var x := lx + (display - d * hDisplays) * 8;
            var y := ly + d * 8;
            && y / 8 == d && y % 8 == ly
            && 0 <= x < 8 * hDisplays && 0 <= y < 8 * vDisplays
  {
    var d := display / hDisplays;
    var col := display - d * hDisplays;
    assert 0 <= col < hDisplays;
    RowCol(d, ly, 8);
    if d >= vDisplays {
      MulMono(vDisplays, d, hDisplays);
      assert false;
    }
    assert lx + col * 8 < 8 * hDisplays by {
      MulMono(col + 1, hDisplays, 8);
    }
    MulMono(d + 1, vDisplays, 8);
  }

  /** One bit of a byte set (on) or cleared. */
  function SetBit(b: bv8, bit: int, on: bool): bv8
    requires 0 <= bit < 8
  {
    if on then b | (1 << bit) else b & !(1 << bit)
  }

  predicate BitOf(b: bv8, k: int)
    requires 0 <= k < 8
  {
    b & (1 << k) != 0
  }

  /** The last step of drawPixel: ORs the bit mask in for a colour, ANDs
      its complement in for black. */
  method UpdateBit(a: array<bv8>, index: int, bit: int, on: bool)
    requires 0 <= index < a.Length && 0 <= bit < 8
    modifies a
    ensures a[..] == old(a[..])[index := SetBit(old(a[index]), bit, on)]
  {
    var val: bv8 := 1 << bit;
    if on {
      a[index] := a[index] | val;
    } else {
      a[index] := a[index] & !val;
    }
  }

  /** The bitmap after drawing one pixel in the given colour. */
  function Plot(cells: seq<bv8>, t: Target, on: bool): (r: seq<bv8>)
    requires t.Bit? ==> 0 <= t.index < |cells| && 0 <= t.bit < 8
    ensures |r| == |cells|
  {
    match t
    case Ignored => cells
    case Bit(i, b) => cells[i := SetBit(cells[i], b, on)]
  }

  /** SetBit changes exactly the addressed bit and leaves it equal to the
      colour. */
  lemma SetBitExact(b: bv8, bit: int, on: bool, k: int)
    requires 0 <= bit < 8 && 0 <= k < 8
    ensures BitOf(SetBit(b, bit, on), k) == if k == bit then on else BitOf(b, k)
  {
    var m: bv8 := 1 << bit;
    var n: bv8 := 1 << k;
    assert k == bit ==> m == n;
    assert k != bit ==> m & n == 0 by {
      assert bit == 0 || bit == 1 || bit == 2 || bit == 3 || bit == 4 || bit == 5 || bit == 6 || bit == 7;
      assert k == 0 || k == 1 || k == 2 || k == 3 || k == 4 || k == 5 || k == 6 || k == 7;
    }
  }

  /** Drawing a pixel changes exactly one bit of one byte: every other byte
      is unchanged, the addressed bit takes the colour, the other bits of its
      byte keep theirs. */
  lemma PlotChangesOneBit(cells: seq<bv8>, t: Target, on: bool)
    requires t.Bit? && 0 <= t.index < |cells| && 0 <= t.bit < 8
    ensures var r := Plot(cells, t, on);
            && (forall j :: 0 <= j < |cells| && j != t.index ==> r[j] == cells[j])
            && BitOf(r[t.index], t.bit) == on
            && (forall k :: 0 <= k < 8 && k != t.bit ==> BitOf(r[t.index], k) == BitOf(cells[t.index], k))
  {
    SetBitExact(cells[t.index], t.bit, on, t.bit);
    forall k | 0 <= k < 8 && k != t.bit
      ensures BitOf(SetBit(cells[t.index], t.bit, on), k) == BitOf(cells[t.index], k)
    {
      SetBitExact(cells[t.index], t.bit, on, k);
    }
  }

  /** Drawing the same pixel twice in the same colour is drawing it once. */
  lemma PlotIdempotent(cells: seq<bv8>, t: Target, on: bool)
    requires t.Bit? ==> 0 <= t.index < |cells| && 0 <= t.bit < 8
    ensures Plot(Plot(cells, t, on), t, on) == Plot(cells, t, on)
  {
    if t.Bit? {
      var b := cells[t.index];
      var m: bv8 := 1 << t.bit;
      assert (b | m) | m == b | m;
      assert (b & !m) & !m == b & !m;
    }
  }

  /** The module rotation is a bijection of the 8 x 8 module grid: no two
      pixels of a module end up on the same LED. */
  lemma ModuleRotateInjective(r: int, x1: int, y1: int, x2: int, y2: int)
    requires 0 <= x1 < 8 && 0 <= y1 < 8 && 0 <= x2 < 8 && 0 <= y2 < 8
    requires ModuleRotate(r, x1, y1) == ModuleRotate(r, x2, y2)
    ensures x1 == x2 && y1 == y2
  {
  }

  /** With the initial tables (module i at slot i, no module rotation) and
      no canvas rotation, an on-canvas pixel (x, y) is bit y % 8 of byte
      x + width * (y / 8). */
  lemma IdentityLayout(hDisplays: int, vDisplays: int, positions: seq<int>, rotations: seq<int>, xx: int, yy: int)
    requires 1 <= hDisplays && 1 <= vDisplays
    requires |positions| == |rotations| == hDisplays * vDisplays
    requires forall i :: 0 <= i < |positions| ==> positions[i] == i && rotations[i] == 0
    requires 8 * hDisplays * vDisplays <= 255
    requires 0 <= xx < 8 * hDisplays && 0 <= yy < 8 * vDisplays
    ensures PixelTarget(hDisplays, vDisplays, positions, rotations, 0, xx, yy)
            == Bit(xx + 8 * hDisplays * (yy / 8), yy % 8)
  {
    var w, h := 8 * hDisplays, 8 * vDisplays;
    var g := Pixel(xx, yy);
    MulMono(1, hDisplays, 8 * vDisplays);
    assert 8 * hDisplays * vDisplays == hDisplays * (8 * vDisplays);
    assert CanvasRotate(0, RotatedWidth(0, w, h), RotatedHeight(0, w, h), xx, yy) == g;
    var slot := SlotIndex(hDisplays, vDisplays, g);
    assert positions[slot] == slot;
    var p := ModulePixel(hDisplays, vDisplays, slot, ModuleRotate(rotations[slot], xx % 8, yy % 8));
    assert rotations[slot] == 0;
    IdentityPlacement(hDisplays, vDisplays, xx, yy);
    assert p == g;
  }

  /** The module of the slot that holds (x, y), unrotated, puts (x, y) back
      where it was. */
  lemma IdentityPlacement(hDisplays: int, vDisplays: int, xx: int, yy: int)
    requires 1 <= hDisplays && 1 <= vDisplays
    requires 0 <= xx < 8 * hDisplays && 0 <= yy < 8 * vDisplays
    ensures var slot := SlotIndex(hDisplays, vDisplays, Pixel(xx, yy));
            ModulePixel(hDisplays, vDisplays, slot, Pixel(xx % 8, yy % 8)) == Pixel(xx, yy)
  {
    var slot := SlotIndex(hDisplays, vDisplays, Pixel(xx, yy));
    var col := xx / 8;
    assert 0 <= col < hDisplays;
    RowCol(yy / 8, xx / 8, hDisplays);
    assert slot == (yy / 8) * hDisplays + xx / 8;
    assert slot / hDisplays == yy / 8;
    assert slot - (yy / 8) * hDisplays == xx / 8;
  }

  /** Rows are taken modulo 256 before the canvas check: with no canvas
      rotation, row 256 + y addresses the same bit as row y. */
  lemma RowTruncated(hDisplays: int, vDisplays: int, positions: seq<int>, rotations: seq<int>, xx: int, yy: int)
    requires 1 <= hDisplays && 1 <= vDisplays
    requires |positions| == |rotations| == hDisplays * vDisplays
    requires Placements(positions, hDisplays * vDisplays)
    requires 0 <= yy < 256
    ensures PixelTarget(hDisplays, vDisplays, positions, rotations, 0, xx, yy + 256)
            == PixelTarget(hDisplays, vDisplays, positions, rotations, 0, xx, yy)
  {
  }

  /** Pixels left of, right of or below the unrotated canvas are ignored. */
  lemma OffCanvasIgnored(hDisplays: int, vDisplays: int, positions: seq<int>, rotations: seq<int>, xx: int, yy: int)
    requires 1 <= hDisplays && 1 <= vDisplays
    requires |positions| == |rotations| == hDisplays * vDisplays
    requires Placements(positions, hDisplays * vDisplays)
    requires 0 <= yy < 256
    requires xx < 0 || xx >= 8 * hDisplays || yy >= 8 * vDisplays
    ensures PixelTarget(hDisplays, vDisplays, positions, rotations, 0, xx, yy) == Ignored
  {
  }

  /** The matrix flush: eight blocks, opcodes digit7 (8) down to digit0 (1);
      the block of opcode k carries byte k - 1 of every module. */
  function MatrixBlocks(cells: seq<bv8>, displays: int): (bs: seq<seq<bv8>>)
    requires 1 <= displays && 8 * displays == |cells|
    ensures |bs| == 8
  {
    seq(8, i requires 0 <= i < 8 => FlushBlock(cells, 8, displays, 7 - i, MatrixOpcode(i)))
  }

  /** The opcode of the i-th block of the matrix flush: digit7 - i. */
  function MatrixOpcode(i: int): (op: bv8)
    requires 0 <= i < 8
    ensures op as int == 8 - i
  {
    (8 - i) as bv8
  }

  class Max72xxMatrix {
    const hDisplays: int
    const vDisplays: int
    const bitmap: array<bv8>
    /** Module placed in each panel slot x + hDisplays * y. */
    const matrixPosition: array<int>
    /** Rotation of each module. */
    const matrixRotation: array<int>
    /** The canvas rotation of the graphics base class, 0..3. */
    var rotation: int
    /** The blocks handed to the SPI driver's sendBlock, oldest first. */
    var sent: seq<seq<bv8>>

    function Displays(): int { hDisplays * vDisplays }

    ghost predicate Valid()
      reads this, matrixPosition
    {
      && 1 <= hDisplays && 1 <= vDisplays && 8 * hDisplays * vDisplays <= 255
      && bitmap.Length == 8 * hDisplays * vDisplays
      && matrixPosition.Length == Displays() && matrixRotation.Length == Displays()
      && matrixPosition != matrixRotation
      && 0 <= rotation < 4
      && Placements(matrixPosition[..], Displays())
    }

    /** Module i goes to slot i with the common rotation. */
    constructor (hDisplays: int, vDisplays: int, rotation: int)
      requires 1 <= hDisplays && 1 <= vDisplays && 8 * hDisplays * vDisplays <= 255
      ensures Valid() && fresh(bitmap) && fresh(matrixPosition) && fresh(matrixRotation)
      ensures this.hDisplays == hDisplays && this.vDisplays == vDisplays
      ensures bitmap.Length == 8 * hDisplays * vDisplays
      ensures forall i :: 0 <= i < Displays() ==> matrixPosition[i] == i && matrixRotation[i] == rotation
      ensures this.rotation == 0 && sent == []
    {
      this.hDisplays, this.vDisplays := hDisplays, vDisplays;
      var displays := hDisplays * vDisplays;
      MulAtLeast(hDisplays, vDisplays);
      bitmap := new bv8[8 * hDisplays * vDisplays];
      var pos := new int[displays];
      var rot := new int[displays];
      var display := 0;
      while display < displays
        invariant 0 <= display <= displays
        invariant forall i :: 0 <= i < display ==> pos[i] == i && rot[i] == rotation
      {
        pos[display] := display;
        rot[display] := rotation;
        display := display + 1;
      }
      matrixPosition, matrixRotation := pos, rot;
      this.rotation := 0;
      sent := [];
    }

    /** The canvas rotation of the graphics base class, kept to 0..3. */
    method SetCanvasRotation(r: int)
      requires 0 <= r
      modifies this
      ensures rotation == r % 4 && sent == old(sent)
    {
      rotation := r % 4;
    }

    /** setPosition: module `display` is placed at panel slot (x, y). */
    method SetPosition(display: int, x: int, y: int)
      requires Valid() && 0 <= display < Displays()
      requires 0 <= x && 0 <= y && x + hDisplays * y < Displays()
      modifies matrixPosition
      ensures Valid()
      ensures matrixPosition[..] == old(matrixPosition[..])[x + hDisplays * y := display]
    {
      matrixPosition[x + hDisplays * y] := display;
    }

    /** setRotation: only the addressed module's rotation changes. */
    method SetRotation(display: int, r: int)
      requires Valid() && 0 <= display < Displays() && 0 <= r <= 255
      modifies matrixRotation
      ensures Valid()
      ensures matrixRotation[..] == old(matrixRotation[..])[display := r]
    {
      matrixRotation[display] := r;
    }

    /** fillScreen: all pixels on for a non-zero colour, all off otherwise. */
    method FillScreen(color: int)
      requires Valid()
      modifies bitmap
      ensures forall i :: 0 <= i < bitmap.Length ==> bitmap[i] == if color != 0 then 0xff else 0
    {
      Memset(bitmap, 0, bitmap.Length, if color != 0 then 0xff else 0);
    }

    /** drawPixel: sets or clears the addressed bit, or does nothing for a
        pixel off the canvas. */
    method DrawPixel(xx: int, yy: int, color: int)
      requires Valid() && -32768 <= xx < 32768 && -32768 <= yy < 32768
      modifies bitmap
      ensures bitmap[..] == Plot(old(bitmap[..]),
                                 PixelTarget(hDisplays, vDisplays, old(matrixPosition[..]), old(matrixRotation[..]),
                                             rotation, xx, yy),
                                 color != 0)
    {
      ghost var t := PixelTarget(hDisplays, vDisplays, matrixPosition[..], matrixRotation[..], rotation, xx, yy);
      var w, h := 8 * hDisplays, 8 * vDisplays;
      var x := xx;
      var y := Byte(yy);
      if rotation != 0 {
        if rotation >= 2 {
          x := Int16(RotatedWidth(rotation, w, h) - 1 - x);
        }
        if rotation == 1 || rotation == 2 {
          y := Byte(RotatedHeight(rotation, w, h) - 1 - y);
        }
        if rotation % 2 == 1 {
          var tmp := Byte(x);
          x := y;
          y := tmp;
        }
      }
      assert Pixel(x, y) == CanvasRotate(rotation, RotatedWidth(rotation, w, h), RotatedHeight(rotation, w, h), xx, yy);
      if x < 0 || x >= w || y >= h {
        return;
      }
      var display := matrixPosition[SlotIndex(hDisplays, vDisplays, Pixel(x, y))];
      var l := ModuleRotate(matrixRotation[display], x % 8, y % 8);
      var p := ModulePixel(hDisplays, vDisplays, display, l);
      var index := ByteIndex(hDisplays, vDisplays, p);
      assert t == Bit(index, p.y % 8);
      ghost var before := bitmap[..];
      UpdateBit(bitmap, index, p.y % 8, color != 0);
      assert bitmap[..] == Plot(before, t, color != 0);
    }

    /** The flush write(): for opcode digit7 down to digit0 one block with a
        pair per module, each block 2 * displays bytes long. */
    method Flush()
      requires Valid()
      modifies this
      ensures sent == old(sent) + MatrixBlocks(bitmap[..], Displays())
      ensures rotation == old(rotation)
    {
      var displays := Displays();
      assert 8 * displays == bitmap.Length;
      var opcode := 8;
      while opcode >= 1
        invariant 0 <= opcode <= 8
        invariant sent == old(sent) + MatrixBlocks(bitmap[..], displays)[..8 - opcode]
        invariant rotation == old(rotation)
      {
        var block := OutputBlock(bitmap, 8, displays, opcode - 1, MatrixOpcode(8 - opcode));
        sent := sent + [block];
        opcode := opcode - 1;
      }
      assert MatrixBlocks(bitmap[..], displays)[..8] == MatrixBlocks(bitmap[..], displays);
    }
  }
}
