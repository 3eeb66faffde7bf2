# mupplet-display: program player and digit frame buffers

This project models the display mupplets of the muwerk framework in Dafny.

- **The program player of `MuppletDisplay`.** It is a per-tick state machine (None, FadeIn, Wait, FadeOut, Finished) over a playlist of program items. It comes with the playlist edits, the item field parsers and the item serialiser.
- **The MAX72xx digit frame buffer.** This covers the glyph encoder, `write(c)`, `fillRect`, `printFormatted` and the flush layout. The HT162x variant is modelled on the same functions.
- **The slide-in character scanner of the MAX72xx digit mupplet.** The player is driven by an imperative class that holds the player fields and a `Max72xxDigits` display.
- **The font registry of the graphic display base class.**
- **The pixel mapper of the MAX72xx LED matrix.**

Each imperative class keeps the source's fields and updates them in place. Every method is proved against a pure function of its inputs and old state, and the source's promises are proved about those functions.

Files:
- `Ints.dfy`: 8- and 16-bit truncation.
- `Text.dfy`: the string helpers from Arduino `String`, C and mupplet-core.
- `Glyphs.dfy`: the segment tables and `mapchar`.
- `DigitFormat.dfy`: the pure specification of the digit frame buffer.
- `FrameBuffer.dfy`: the array loops behind it.
- `Max72xxDigits.dfy`, `Ht162xDigits.dfy`: the frame buffer classes.
- `Max72xxMatrix.dfy`: the LED matrix.
- `Fonts.dfy`: the font registry.
- `Program.dfy`: items, parsers and the serialiser.
- `ProgramPlayer.dfy`: the player as functions on a `Player` value.
- `DisplayDigits.dfy`: the MAX72xx digit mupplet class that runs the player imperatively.

mupplet-core's `shift`, `parseToken` and `parseRangedLong`, C `atol`, and Arduino's `String::substring` and `String(long)` are not part of this model's sources. `Text.dfy` gives each one a concrete definition with the behaviour the callers rely on.

Quirks of the source are reproduced as written:
- `printFormatted` clears the row at `y * _width` but copies at `y * length` (`DigitFormat.FormatRowMismatch`).
- The centred, truncated cursor lands past the slot (`DigitFormat.CenterCursorOvershoots`).
- `addContent` returns the new length.
- `parseDefaults` stops at the first field that changes.
- `changedProgramItem` resumes a slide-in on empty content, because of unsigned `length() - 1`.
- `isNumber` accepts `""` and `"-"`.

One source bug is corrected rather than reproduced. The MAX72xx digit constructor clamps the digit count only for its `length` member, so the model sizes the display from the clamped count. "## Findings" records the bug and `Max72xx.OversizedLengthOverrun` exhibits it.

## Model

| member | source | states |
|---|---|---|
| Ints.Byte | src/helper/mup_display.h:81 | a `uint8_t` store: the result is in 0..255, equals the value when it is in range, and is congruent to it modulo 256 |
| Ints.Int16 | src/helper/mup_display.h:46 | an `int16_t` store: the result is in -32768..32767, equals the value in range, and is congruent modulo 65536 |
| Ints.Word | src/hardware/max72xx_digits.h:286-287 | a `uint16_t` store: the result is in 0..65535, equals the value in range, and is congruent modulo 65536 |
| Glyphs.ToUpper | src/hardware/max72xx_digits.h:384-387 | the upper-case letter at the same alphabet offset |
| Glyphs.MapChar | src/hardware/max72xx_digits.h:360-395 | digits and letters come from the tables, with letters in either case; `.`/`,` give the decimal point; `([{` share one glyph and `)]}` another; every unmapped character gives the underscore |
| Glyphs.Ht162xGlyph | src/hardware/ht162x_digits.h:423-439 | space 0, `-` 0b1, `_` 0b1000, `=` 0b1001; digits and letters (either case) from the tables; every other character 0b1000 |
| Glyphs.CharLen | src/hardware/ht162x_digits.h:383-390 | at most 1, and 0 exactly for control characters and for a decimal separator that is not the first character |
| Glyphs.Max72xxCaseInsensitive | src/hardware/max72xx_digits.h:384-387 | a lower-case letter has the glyph of its upper-case form |
| Glyphs.Ht162xCaseInsensitive | src/hardware/ht162x_digits.h:433-436 | the same for the HT162x tables |
| DigitFormat.Put | src/hardware/max72xx_digits.h:217-231 | one source character adds at most one shadow cell |
| DigitFormat.CellsMonotone | src/hardware/max72xx_digits.h:216-232 | a longer prefix never encodes to fewer cells |
| DigitFormat.EncodeFromAgrees | src/hardware/max72xx_digits.h:216-232 | the bounded pointer loop yields at most 8 cells; when it consumes the text they are the full encoding, otherwise all 8 cells are used; a text of fewer than 8 cells is always consumed |
| DigitFormat.EncodeAgreesWithCells | src/hardware/max72xx_digits.h:209-233 | the same for the whole `printFormatted` encoder |
| DigitFormat.EncodePrefix | src/hardware/max72xx_digits.h:216-232 | while fewer than 8 cells are in use, the loop has emitted exactly the reference encoding of the text read so far |
| DigitFormat.CellsOfPlainText | src/hardware/max72xx_digits.h:229-230 | a text without control characters and decimal separators takes one cell per character, each cell its glyph |
| DigitFormat.ControlCharTakesNoCell | src/hardware/max72xx_digits.h:217-218 | inserting a control character anywhere leaves the encoding unchanged |
| DigitFormat.DecimalPointMerges | src/hardware/max72xx_digits.h:219-226 | "1.5" and "1,5" take two cells with the point merged into the '1'; a leading '.' takes a cell of its own |
| DigitFormat.DigitPointDigit | src/hardware/max72xx_digits.h:219-231 | digit, separator, digit: two cells, the point merged into the first digit, the text consumed |
| DigitFormat.EightCellLimit | src/hardware/max72xx_digits.h:216 | the shadow buffer stops at 8 cells, so a ninth character is not consumed |
| DigitFormat.EightPlainCells | src/hardware/max72xx_digits.h:216 | a text of more than 8 characters whose first 8 take one cell each fills all 8 cells and is not consumed |
| DigitFormat.ClampPos | src/hardware/max72xx_digits.h:210-211 | a coordinate clamped into 0..extent-1, unchanged when already inside |
| DigitFormat.ClampLen | src/hardware/max72xx_digits.h:212 | a width clamped into 0..extent-start, 0 when negative |
| DigitFormat.Placement | src/hardware/max72xx_digits.h:237-272 | `min(w,size)` cells are copied. Left copies from the start to the start; right copies the last cells to the end of the slot; centre copies the middle of a long text or centres a short one (offsets `(size-w)/2` and `(w-size)/2`) |
| DigitFormat.CursorAfter | src/hardware/max72xx_digits.h:241-270 | the cursor lands after the copied cells; right alignment lands at `x + w`; a truncated centre lands at `x + size - offs`, at or past the slot end |
| DigitFormat.CenterCursorOvershoots | src/hardware/max72xx_digits.h:250 | 8 cells centred into 2 put the unclamped cursor at 5 |
| DigitFormat.RowBound | src/hardware/max72xx_digits.h:213 | a row offset computed with `length` never exceeds the one computed with `_width` |
| DigitFormat.FormatSlot | src/hardware/max72xx_digits.h:210-212 | the clamped slot lies inside the display |
| DigitFormat.FormatCells | src/hardware/max72xx_digits.h:208-275 | `printFormatted` keeps the bitmap size |
| DigitFormat.FormatInBounds | src/hardware/max72xx_digits.h:213-272 | both the clearing `memset` and the copying `memcpy` stay inside the bitmap |
| DigitFormat.FormatCursorX | src/hardware/max72xx_digits.h:273 | the final cursor x is at least the slot start and never above `_width` |
| DigitFormat.FitsMeansWhole | src/hardware/max72xx_digits.h:274 | when the result is true, the whole text was encoded and every cell of it was copied |
| DigitFormat.FormatStaysInSlot | src/hardware/max72xx_digits.h:213-272 | with one module per row, no cell outside the slot changes |
| DigitFormat.FormatRowMismatch | src/hardware/max72xx_digits.h:213-240 | with two modules per row, printing on row 1 writes cell 8 (row 0) and clears cell 16 |
| DigitFormat.FillRectArea | src/hardware/max72xx_digits.h:185-188 | the clamped rectangle lies inside the display; a negative width or height gives an empty one |
| DigitFormat.FillRectCells | src/hardware/max72xx_digits.h:184-193 | `fillRect` keeps the bitmap size |
| DigitFormat.FillEmptyRect | src/hardware/max72xx_digits.h:187-193 | a negative width or height fills nothing |
| DigitFormat.LinePos | src/hardware/max72xx_digits.h:398-408 | CR returns to column 0, LF also moves down a row, and wrap moves a cursor at or past the width to the next row; the row step is an `int16_t` increment, so 32767 steps to -32768 |
| DigitFormat.RowWrapsToNegative | src/hardware/max72xx_digits.h:400-416 | a line feed on row 32767 leaves the cursor at (0, -32768); a following `A` draws nothing and moves the cursor to column 1 |
| DigitFormat.WriteChar | src/hardware/max72xx_digits.h:397-432 | `write(c)` keeps the bitmap size; the cursor row wraps as an `int16_t` through `LinePos` |
| DigitFormat.WriteOffScreen | src/hardware/max72xx_digits.h:409-416 | off the viewport nothing is drawn; at a negative position x still advances by `getCharLen` |
| DigitFormat.WriteDrawsGlyph | src/hardware/max72xx_digits.h:417-431 | an on-screen printable character sets exactly its cell to its glyph and advances x by one |
| DigitFormat.WriteMergesDecimalPoint | src/hardware/max72xx_digits.h:420-426 | a decimal point after column 0 ORs the point into the previous cell and does not advance |
| DigitFormat.FlushBlock | src/hardware/max72xx_digits.h:286-297 | one block holds an (opcode, byte) pair per module |
| DigitFormat.FlushBlockPairs | src/hardware/max72xx_digits.h:289-295 | pair j of a block carries the opcode and the byte of module `modules-1-j` at the digit's offset |
| DigitFormat.FlushBlockPrefix | src/hardware/max72xx_digits.h:290-295 | each loop turn appends one pair to the block |
| DigitFormat.FlushBlockFromPairs | src/hardware/max72xx_digits.h:286-297 | a buffer with those pairs is the block |
| DigitFormat.DigitOpcode | src/hardware/max72xx_digits.h:292 | digit d gets opcode `length - d`, in 1..8 |
| DigitFormat.FlushBlocks | src/hardware/max72xx_digits.h:283-299 | one block per digit |
| FrameBuffer.Memset | src/hardware/max72xx_digits.h:192 | exactly the count cells from the offset hold the pattern; the rest are unchanged |
| FrameBuffer.Memcpy | src/hardware/max72xx_digits.h:240 | exactly the copied cells change |
| FrameBuffer.FormatCellsFrom | src/hardware/max72xx_digits.h:235-272 | clearing the slot and then copying the placed cells gives `FormatCells` |
| FrameBuffer.FillRectRows | src/hardware/max72xx_digits.h:184-193 | the row loop leaves the bitmap as `FillRectCells` |
| FrameBuffer.EncodeShadow | src/hardware/max72xx_digits.h:214-232 | the pointer loop computes the shadow cells and the consumed flag of `Encode` |
| FrameBuffer.FormatInto | src/hardware/max72xx_digits.h:208-275 | the bitmap becomes `FormatCells`, with the encoded size and the fit result |
| FrameBuffer.WriteInto | src/hardware/max72xx_digits.h:397-432 | the bitmap and cursor become `WriteChar` |
| FrameBuffer.OutputBlock | src/hardware/max72xx_digits.h:287-296 | the do-while loop builds `FlushBlock` |
| Max72xx.SizingAsWritten | src/hardware/max72xx_digits.h:94-99 | the member length is the digit count clamped to 8, while `_width` and `bitmapSize` use the unclamped count; for up to 8 digits this agrees with `ClampedSizing` |
| Max72xx.ClampedSizing | src/hardware/max72xx_digits.h:94-99 | the clamp applied throughout: a length in 1..8 and at most the count, and a width of `h` times that length |
| Max72xx.OversizedLengthOverrun | src/hardware/max72xx_digits.h:283-298 | with 12 digits on one module, the flush of digit 0 wraps its `uint16_t` offset to 65532, outside the 14 bytes allocated |
| Max72xx.ClampedSizingConsistent | src/hardware/max72xx_digits.h:94-99 | with the clamp applied throughout, the bitmap holds `length` bytes per module and matches width times height |
| Max72xx.Max72xxDigits.constructor | src/hardware/max72xx_digits.h:94-104 | length, width and bitmap as `ClampedSizing` gives them; height `v`, cursor at the origin, wrap on |
| Max72xx.Max72xxDigits.SetCursor | src/hardware/max72xx_digits.h:149-152 | sets both cursor coordinates and nothing else |
| Max72xx.Max72xxDigits.SetCursorX | src/hardware/max72xx_digits.h:157-159 | sets x only |
| Max72xx.Max72xxDigits.SetCursorY | src/hardware/max72xx_digits.h:164-166 | sets y only |
| Max72xx.Max72xxDigits.SetTextWrap | src/hardware/max72xx_digits.h:172-174 | sets the wrap flag only |
| Max72xx.Max72xxDigits.FillRect | src/hardware/max72xx_digits.h:184-193 | the bitmap becomes `FillRectCells` |
| Max72xx.Max72xxDigits.FillScreen | src/hardware/max72xx_digits.h:303-309 | every byte holds the pattern and the cursor is at the origin |
| Max72xx.Max72xxDigits.Begin | src/hardware/max72xx_digits.h:107-119 | every byte is 0, the flush blocks of that blank buffer are appended to the sent log, the cursor is at the origin and wrap is kept |
| Max72xx.Max72xxDigits.PrintFormatted | src/hardware/max72xx_digits.h:208-275 | bitmap, cursor and result as the `DigitFormat` functions say, with the glyphs of `mapchar` |
| Max72xx.Max72xxDigits.Write | src/hardware/max72xx_digits.h:397-432 | bitmap and cursor as `WriteChar` with `mapchar` |
| Max72xx.Max72xxDigits.Flush | src/hardware/max72xx_digits.h:283-299 | appends the flush blocks to what was sent, with the cursor and wrap flag unchanged |
| Ht162x.Ht162xDigits.constructor | src/hardware/ht162x_digits.h:94-110 | 12 digits, 13 raw, 8 segments for the 7-segment LCD; 10, 12, 17 for the 16-segment LCD; any other type inactive |
| Ht162x.Ht162xDigits.SetCursor | src/hardware/ht162x_digits.h:176-179 | sets both cursor coordinates |
| Ht162x.Ht162xDigits.SetCursorX | src/hardware/ht162x_digits.h:184-186 | sets x only |
| Ht162x.Ht162xDigits.SetCursorY | src/hardware/ht162x_digits.h:191-193 | sets y only |
| Ht162x.Ht162xDigits.SetTextWrap | src/hardware/ht162x_digits.h:199-201 | sets the wrap flag only |
| Ht162x.Ht162xDigits.FillRect | src/hardware/ht162x_digits.h:211-220 | the bitmap becomes `FillRectCells` |
| Ht162x.Ht162xDigits.PrintFormatted | src/hardware/ht162x_digits.h:235-308 | the bitmap and result as `FormatCells`/`FormatFits` with the HT162x glyphs; the cursor is not changed |
| Ht162x.Ht162xDigits.Write | src/hardware/ht162x_digits.h:393-442 | bitmap and cursor as `WriteChar` with the HT162x glyphs |
| Max72xxMatrixDisplay.CanvasRotate | src/hardware/max72xx_matrix.h:196-218 | y is truncated to 8 bits; rotation 0 leaves x |
| Max72xxMatrixDisplay.ModuleRotate | src/hardware/max72xx_matrix.h:232-246 | the per-module rotation maps 0..7 x 0..7 into itself |
| Max72xxMatrixDisplay.ModuleRotateInjective | src/hardware/max72xx_matrix.h:232-246 | and is one-to-one |
| Max72xxMatrixDisplay.SlotIndex | src/hardware/max72xx_matrix.h:227 | the position slot of a canvas pixel is a valid table index |
| Max72xxMatrixDisplay.ModulePixel | src/hardware/max72xx_matrix.h:248-250 | a module's local pixel lands inside that module's band of the bitmap |
| Max72xxMatrixDisplay.ModuleBand | src/hardware/max72xx_matrix.h:248-250 | `x += (display % h) * 8`, `y += (display / h) * 8` keep the row within the module |
| Max72xxMatrixDisplay.ByteIndex | src/hardware/max72xx_matrix.h:254 | the byte pointer stays inside the bitmap |
| Max72xxMatrixDisplay.PixelTarget | src/hardware/max72xx_matrix.h:187-255 | a drawn pixel hits a byte inside the bitmap and a bit in 0..7 |
| Max72xxMatrixDisplay.OffCanvasIgnored | src/hardware/max72xx_matrix.h:220-223 | a pixel outside the canvas is ignored |
| Max72xxMatrixDisplay.RowTruncated | src/hardware/max72xx_matrix.h:197 | y and y+256 draw the same pixel |
| Max72xxMatrixDisplay.IdentityLayout | src/hardware/max72xx_matrix.h:225-255 | with identity placement and no rotation, pixel (x, y) is bit `y % 8` of byte `x + WIDTH * (y / 8)` |
| Max72xxMatrixDisplay.IdentityPlacement | src/hardware/max72xx_matrix.h:227-250 | with identity placement a pixel returns to its own coordinates |
| Max72xxMatrixDisplay.Plot | src/hardware/max72xx_matrix.h:254-261 | drawing keeps the bitmap size |
| Max72xxMatrixDisplay.SetBitExact | src/hardware/max72xx_matrix.h:255-261 | OR sets and AND-NOT clears exactly the addressed bit |
| Max72xxMatrixDisplay.PlotChangesOneBit | src/hardware/max72xx_matrix.h:254-261 | exactly one bit of one byte changes, set for a non-zero colour and cleared otherwise |
| Max72xxMatrixDisplay.PlotIdempotent | src/hardware/max72xx_matrix.h:254-261 | drawing the same pixel twice is drawing it once |
| Max72xxMatrixDisplay.UpdateBit | src/hardware/max72xx_matrix.h:254-261 | the pointer update changes only the addressed byte |
| Max72xxMatrixDisplay.MatrixBlocks | src/hardware/max72xx_matrix.h:109-124 | the flush sends 8 blocks |
| Max72xxMatrixDisplay.MatrixOpcode | src/hardware/max72xx_matrix.h:111 | block i carries opcode `digit7 - i` |
| Max72xxMatrixDisplay.Max72xxMatrix.constructor | src/hardware/max72xx_matrix.h:43-57 | `8 x displays` bytes; module i at position i with the common rotation |
| Max72xxMatrixDisplay.Max72xxMatrix.SetCanvasRotation | src/hardware/max72xx_matrix.h:200-218 | the canvas rotation read by `drawPixel` is kept modulo 4 |
| Max72xxMatrixDisplay.Max72xxMatrix.SetPosition | src/hardware/max72xx_matrix.h:131-135 | only the addressed position entry changes |
| Max72xxMatrixDisplay.Max72xxMatrix.SetRotation | src/hardware/max72xx_matrix.h:145-149 | only the addressed rotation entry changes |
| Max72xxMatrixDisplay.Max72xxMatrix.FillScreen | src/hardware/max72xx_matrix.h:176-180 | every byte is 0xff for a non-zero colour, else 0 |
| Max72xxMatrixDisplay.Max72xxMatrix.DrawPixel | src/hardware/max72xx_matrix.h:187-262 | the bitmap becomes `Plot` of the pixel's target |
| Max72xxMatrixDisplay.Max72xxMatrix.Flush | src/hardware/max72xx_matrix.h:109-124 | appends the 8 blocks to what was sent |
| Fonts.SignedChar | src/helper/mup_gfx_display.h:78 | a byte read as a signed `char` |
| Fonts.BaselineGlyphIndex | src/helper/mup_gfx_display.h:70 | the reference glyph index is `ref - first` when `ref > first`, else 0 |
| Fonts.MaxAdvance | src/helper/mup_gfx_display.h:73-82 | the largest of the initial advance and every glyph's advance |
| Fonts.FontMetrics | src/helper/mup_gfx_display.h:67-84 | xAdvance is that maximum; yAdvance is the font's; the baseline is the negated `yOffset` of the reference glyph, unchanged without a reference character |
| Fonts.GetFontSize | src/helper/mup_gfx_display.h:67-84 | the glyph loop computes `FontMetrics` |
| Fonts.FontRegistry.constructor | src/helper/mup_gfx_display.h:22-28 | font 0 is registered with size {0, 6, 8}, so the registry is never empty |
| Fonts.FontRegistry.AddFont | src/helper/mup_gfx_display.h:34-39 | font and size are appended together; earlier entries stay |
| Fonts.FontRegistry.AddFontWithReference | src/helper/mup_gfx_display.h:46-51 | the same, with the baseline from the reference character |
| Fonts.FontRegistry.AddFontDefaultReference | src/helper/mup_gfx_display.h:46-51 | without a reference text the baseline comes from the glyph of "A" |
| Fonts.FontRegistry.SetFont | src/helper/mup_gfx_display.h:56-63 | an unknown font changes nothing; otherwise it becomes current and the cursor moves by the baseline difference, with font 0 counting as 6; the new row is stored as an `int16_t` |
| Fonts.FontRegistry.SetTextFont | src/display_matrix_max72xx.h:139-145 | a nonzero adjustment moves the cursor row by it, stored as an `int16_t`; a zero adjustment leaves the row alone; the column is kept |
| Fonts.FontRegistry.FontParserSet | src/helper/mup_gfx_display.h:116-123 | a font is set exactly when the number is a registered index |
| Fonts.FontRegistry.TextFontSize | src/helper/mup_gfx_display.h:128-130 | the size of the current font, valid and registered |
| Fonts.FontRegistry.TextFontCount | src/helper/mup_gfx_display.h:132-134 | the number of registered fonts, at least 1 |
| Text.DigitValue | src/helper/mup_display.h:547 | a decimal digit's value is 0..9 |
| Text.DigitChar | src/helper/mup_display.h:716 | the digit character of 0..9 reads back as that value |
| Text.DigitRun | src/helper/mup_display.h:547 | the longest prefix of digits `atol` reads |
| Text.SkipSpace | src/helper/mup_display.h:547 | `atol` skips a suffix-preserving run of white space |
| Text.NatToString | src/helper/mup_display.h:716-722 | the decimal text of a natural number, without leading zeros, reads back as its value |
| Text.IntToString | src/helper/mup_display.h:716-722 | `String(long)` text: digits with a leading '-' exactly for negative values |
| Text.DigitRunOfDigits | src/helper/mup_display.h:547 | `atol` reads every digit of a string of digits |
| Text.AtolInverse | src/helper/mup_display.h:716-722 | `atol` reads back every number `String(long)` writes |
| Text.CStr | src/helper/mup_display.h:484 | `c_str()` ends at the first NUL |
| Text.IndexOf | src/helper/mup_display.h:502 | the first index of a character, or -1 exactly when absent |
| Text.LastIndexOf | src/helper/mup_display.h:485 | `strrchr`: no later occurrence follows the returned index, and -1 exactly when the character is absent |
| Text.Shift | src/helper/mup_display.h:502-506 | the text splits at the first delimiter into head and rest; without one the whole text is the head |
| Text.ShiftField | src/helper/mup_display.h:596-601 | a field followed by the delimiter is split off exactly |
| Text.ShiftLast | src/helper/mup_display.h:600-601 | the last field, without a delimiter, is returned whole and nothing remains |
| Text.ParseToken | src/helper/mup_display.h:516 | the index of the matching token, or -1 exactly when none matches |
| Text.ParseRangedLong | src/helper/mup_display.h:529-538 | the number when in range, the low default below the range, the high default above it |
| Text.Substring | src/helper/mup_display.h:858 | `substring(l, r)` within bounds is the slice; from past the end it is empty |
| Program.ModeIndex | src/helper/mup_display.h:23-28 | a mode's index is a valid mode-token index |
| Program.ModeOf | src/helper/mup_display.h:518 | the cast back from a token index is the inverse of `ModeIndex` |
| Program.ParseMode | src/helper/mup_display.h:515-522 | changes the mode exactly when the argument is another mode's token; reports a change exactly when the item changed; no other field changes |
| Program.ParseRepeat | src/helper/mup_display.h:529-538 | a non-empty argument sets repeat to the number clamped to 0..32767, reporting exactly a real change |
| Program.ParseDuration | src/helper/mup_display.h:545-554 | a non-empty, non-negative number sets the duration, reporting exactly a real change |
| Program.ParseSpeed | src/helper/mup_display.h:561-570 | a number of at least 1 sets the speed clamped to 1..16; a result of 0 is refused |
| Program.ParseFont | src/helper/mup_display.h:577-586 | a registered font index sets the font, reporting exactly a real change |
| Program.ParseDefaults | src/helper/mup_display.h:501-508 | the `||` chain changes at most one field and keeps the values in range |
| Program.ParseFields | src/helper/mup_display.h:596-601 | the five positional parsers keep the name and the colours |
| Program.ApplyFields | src/helper/mup_display.h:593-603 | `addItem`/`replaceItem` parsing keeps the name and the colours |
| Program.ApplyFieldsInRange | src/helper/mup_display.h:596-601 | and keeps every field in its range |
| Program.NoSemicolonInNumber | src/helper/mup_display.h:716-722 | printed numbers contain no ';' |
| Program.ModeTokenParses | src/helper/mup_display.h:935 | each mode's token parses back to its index and contains no ';' |
| Program.ModeRoundTrip | src/helper/mup_display.h:515-522 | parsing a mode's token sets that mode |
| Program.JoinedFields | src/helper/mup_display.h:714-726 | the joined fields split back into the same fields, with or without content |
| Program.ItemStringFields | src/helper/mup_display.h:712-727 | the item string splits into the mode token, the four numbers and the content |
| Program.ParseFieldsBack | src/helper/mup_display.h:596-602 | parsing those fields restores every serialised field of an in-range item |
| Program.ItemStringRoundTrip | src/helper/mup_display.h:712-727 | `addItem` parsing of `getItemString` restores mode, repeat, duration, speed, font and content |
| Program.ParseItemCommand | src/helper/mup_display.h:483-494 | on success, name and operation are non-empty, split at the last '/', and rejoin to the command |
| Program.ItemCommandRoundTrip | src/helper/mup_display.h:483-494 | `name/operation` parses back to the pair when the operation has no '/' |
| Text.CStrOfPlain | src/helper/mup_display.h:484 | a string without NUL is its own `c_str()` |
| Program.IsNumber | src/helper/mup_display.h:731-750 | the loop accepts exactly an optional '-' followed by digits and, unless integer, at most one '.' |
| Program.NumberBodySnoc | src/helper/mup_display.h:738-747 | one more character keeps a number body exactly when it is a digit, or the first '.' of a non-integer |
| Program.NumberBodyPrefix | src/helper/mup_display.h:738-747 | a text with a rejected prefix is rejected: the loop may stop at the first bad character |
| Program.EmptyIsNumber | src/helper/mup_display.h:731-750 | "" and "-" are accepted |
| Program.PrintedIntegerIsNumber | src/helper/mup_display.h:731-750 | every printed integer is an integer number |
| Program.ErrorText | src/helper/mup_display.h:752-760 | "Error" when w >= 5, "Err" when w >= 3, "E" otherwise; fits any slot of at least one cell |
| ProgramPlayer.Format | src/display_digits_max72xx.h:148-153 | `displayFormat` keeps the frame buffer fitting the display |
| ProgramPlayer.Clear | src/display_digits_max72xx.h:129-132 | `displayClear` keeps the frame buffer fitting the display |
| ProgramPlayer.Erase | src/helper/mup_display.h:918 | erasing shortens by one and shifts the later items down |
| ProgramPlayer.Scan | src/display_digits_max72xx.h:156-174 | found: a non-space character of width 1 at `charPos < length`. Not found: `charPos` reaches the length. `charPos` never decreases; every skipped character is a space or of width 0; `lastPos` grows by the skipped spaces |
| ProgramPlayer.Start | src/helper/mup_display.h:811-847 | static modes format with align 0/1/2 and wait. SlideIn sets `delayCtr = 17-speed`, `slidePos = w` and `lastPos` to the leading spaces; it fades in exactly when a visible character exists (clearing the area), else it formats left and waits |
| ProgramPlayer.FadeInStep | src/helper/mup_display.h:849-881 | other modes wait; SlideIn only counts down `delayCtr` until it reaches 0, then advances |
| ProgramPlayer.Advance | src/helper/mup_display.h:854-881 | reloads `17-speed`, draws the character one column further left; stays in FadeIn until it arrives |
| ProgramPlayer.Arrive | src/helper/mup_display.h:864-879 | `lastPos += charX`, `slidePos = w`; waits when full or no next character, else `charPos` advances |
| ProgramPlayer.WaitStep | src/helper/mup_display.h:888-892 | an expired timer moves to FadeOut |
| ProgramPlayer.FadeOutStep | src/helper/mup_display.h:894-907 | fade-out finishes at once |
| ProgramPlayer.EndStep | src/helper/mup_display.h:909-925 | back to None. Repeat 0 keeps the item and advances. Repeat 1 removes it. Other counts are decremented in place and advance. The counter wraps to 0 past the end |
| ProgramPlayer.Show | src/helper/mup_display.h:182-187 | start and fade-in leave a started item |
| ProgramPlayer.Retire | src/helper/mup_display.h:188-196 | wait, fade-out and end change only the current item or erase it |
| ProgramPlayer.Loop | src/helper/mup_display.h:172-206 | an idle player is unchanged; the cursor and wrap are restored; the playlist changes only at the counter |
| ProgramPlayer.Changed | src/helper/mup_display.h:778-809 | a resumed slide-in redraws `content[0:charPos]`, sets `lastPos` to the cursor and keeps `charPos`; otherwise the whole text is drawn and the item waits |
| ProgramPlayer.AddItem | src/helper/mup_display.h:593-603 | the playlist grows by one, earlier items are kept, the new last item carries the name and the default colours, and counter, state and all other fields are untouched |
| ProgramPlayer.ReplaceItem | src/helper/mup_display.h:605-621 | an invalid index changes nothing; otherwise only item i is reparsed |
| ProgramPlayer.AddContent | src/helper/mup_display.h:669-675 | the playlist grows by one, earlier items are kept, the new last item is the defaults with the name and the content, and nothing else changes |
| ProgramPlayer.ReplaceContent | src/helper/mup_display.h:677-686 | an invalid index changes nothing; otherwise only item i's content |
| ProgramPlayer.JumpItem | src/helper/mup_display.h:623-630 | the playlist is kept and only counter and state may change; a valid index becomes the (valid) counter in state None; an invalid one changes nothing |
| ProgramPlayer.ClearItem | src/helper/mup_display.h:632-652 | an invalid index changes nothing; otherwise exactly item i goes, the counter follows its item or restarts at i (0 past the end), and an empty playlist clears the area |
| ProgramPlayer.ClearItems | src/helper/mup_display.h:143-148 | empties the playlist, resets counter and state, clears the area |
| ProgramPlayer.FindItem | src/helper/mup_display.h:703-710 | the first index with the name, or -1 exactly when none has it |
| ProgramPlayer.SetDefaults | src/helper/mup_display.h:131-139 | speed cut to 16, an unregistered font becomes 0, the rest stored |
| ProgramPlayer.SetPlayer | src/helper/mup_display.h:101-119 | the height is cut to the display; the row is moved so the area ends on the display; the old area is cleared when disabling and the new one when enabling |
| ProgramPlayer.EndStepInRange | src/helper/mup_display.h:909-925 | ending an item keeps every item in range and the counter valid |
| ProgramPlayer.LoopValid | src/helper/mup_display.h:172-206 | a tick keeps the player valid |
| ProgramPlayer.AddItemValid | src/helper/mup_display.h:593-603 | adding keeps the player valid |
| ProgramPlayer.ReplaceItemValid | src/helper/mup_display.h:605-621 | replacing keeps the player valid |
| ProgramPlayer.ClearItemValid | src/helper/mup_display.h:632-652 | removing keeps the counter a valid index or 0 |
| ProgramPlayer.SingleShowingRemoved | src/helper/mup_display.h:909-925 | a static item with repeat 1 is removed in the tick its timer expires |
| ProgramPlayer.ForeverItemStays | src/helper/mup_display.h:909-925 | an item with repeat 0 is never removed |
| ProgramPlayer.SlideProgress | src/helper/mup_display.h:854-881 | every acting fade-in tick either moves the character one column left or starts a later character |
| ProgramPlayer.SlideDelay | src/helper/mup_display.h:851-853 | a tick with `delayCtr >= 2` only decrements it |
| ProgramPlayer.AddedItemFound | src/helper/mup_display.h:703-710 | a newly added item is found under its name when no earlier item has that name |
| DisplayDigits.DigitFontMetrics | src/display_digits_max72xx.h:105-111 | the digit font has baseline 0 and advances 1, matching every visible character's length |
| DisplayDigits.DigitFontFixed | src/display_digits_max72xx.h:113-115 | with one font, parsing a font field never changes an item |
| DisplayDigits.GeometryOf | src/hardware/max72xx_digits.h:94-104 | the display's layout holds `h*v` modules of `length` digits |
| DisplayDigits.DisplayDigitsMax72xx.constructor | src/display_digits_max72xx.h:56-62 | the `programInit` player state; the display's `begin` leaves every frame buffer byte 0 and has sent exactly the flush of that blank buffer; wrap is off; the display length is the digit count clamped to 8 |
| DisplayDigits.DisplayDigitsMax72xx.DisplayFormat | src/display_digits_max72xx.h:148-153 | prints and flushes as `Format`; returns the fit |
| DisplayDigits.DisplayDigitsMax72xx.DisplayClear | src/display_digits_max72xx.h:129-132 | fills with the blank pattern and flushes |
| DisplayDigits.DisplayDigitsMax72xx.DisplayClearBackground | src/display_digits_max72xx.h:134-137 | the same, ignoring the background |
| DisplayDigits.DisplayDigitsMax72xx.DisplayError | src/helper/mup_display.h:752-760 | formats `ErrorText(w)` |
| DisplayDigits.DisplayDigitsMax72xx.InitNextCharDimensions | src/display_digits_max72xx.h:156-174 | the loop ends in the state `Scan` computes |
| DisplayDigits.DisplayDigitsMax72xx.StartProgramItem | src/helper/mup_display.h:811-847 | the player becomes `Start` |
| DisplayDigits.DisplayDigitsMax72xx.FadeInProgramItem | src/helper/mup_display.h:849-881 | the player becomes `FadeInStep` |
| DisplayDigits.DisplayDigitsMax72xx.AdvanceProgramItem | src/helper/mup_display.h:854-881 | the player becomes `Advance` |
| DisplayDigits.DisplayDigitsMax72xx.ArriveProgramItem | src/helper/mup_display.h:864-879 | the player becomes `Arrive` |
| DisplayDigits.DisplayDigitsMax72xx.FadeInEnd | src/helper/mup_display.h:883-886 | the state becomes Wait |
| DisplayDigits.DisplayDigitsMax72xx.WaitProgramItem | src/helper/mup_display.h:888-892 | the player becomes `WaitStep` |
| DisplayDigits.DisplayDigitsMax72xx.FadeOutProgramItem | src/helper/mup_display.h:894-903 | the player becomes `FadeOutStep` |
| DisplayDigits.DisplayDigitsMax72xx.FadeOutEnd | src/helper/mup_display.h:905-907 | the state becomes Finished |
| DisplayDigits.DisplayDigitsMax72xx.EndProgramItem | src/helper/mup_display.h:909-925 | the player becomes `EndStep` |
| DisplayDigits.DisplayDigitsMax72xx.ShowProgramItem | src/helper/mup_display.h:182-187 | the player becomes `Show` |
| DisplayDigits.DisplayDigitsMax72xx.RetireProgramItem | src/helper/mup_display.h:188-196 | the player becomes `Retire` |
| DisplayDigits.DisplayDigitsMax72xx.ProgramLoop | src/helper/mup_display.h:172-206 | the player becomes `Loop` and stays valid |
| DisplayDigits.DisplayDigitsMax72xx.ChangedProgramItem | src/helper/mup_display.h:778-809 | the player becomes `Changed` |
| DisplayDigits.DisplayDigitsMax72xx.ParseItem | src/helper/mup_display.h:596-601 | the shift-and-parse sequence computes `ApplyFields` |
| DisplayDigits.DisplayDigitsMax72xx.AddItem | src/helper/mup_display.h:593-603 | becomes `AddItem`; returns the new item's index |
| DisplayDigits.DisplayDigitsMax72xx.ReplaceItem | src/helper/mup_display.h:605-621 | becomes `ReplaceItem`; returns i or -1 |
| DisplayDigits.DisplayDigitsMax72xx.AddContent | src/helper/mup_display.h:669-675 | becomes `AddContent`; returns the new length, one more than the new index |
| DisplayDigits.DisplayDigitsMax72xx.ReplaceContent | src/helper/mup_display.h:677-686 | becomes `ReplaceContent`; returns i or -1 |
| DisplayDigits.DisplayDigitsMax72xx.JumpItem | src/helper/mup_display.h:623-630 | becomes `JumpItem`; returns whether i was valid |
| DisplayDigits.DisplayDigitsMax72xx.ClearItem | src/helper/mup_display.h:632-652 | becomes `ClearItem`; returns whether i was valid |
| DisplayDigits.DisplayDigitsMax72xx.ClearItems | src/helper/mup_display.h:143-148 | becomes `ClearItems` |
| DisplayDigits.DisplayDigitsMax72xx.FindItemByName | src/helper/mup_display.h:703-710 | the loop returns `FindItem` |
| DisplayDigits.DisplayDigitsMax72xx.SetDefaults | src/helper/mup_display.h:131-139 | becomes `SetDefaults` with one font |
| DisplayDigits.DisplayDigitsMax72xx.SetPlayer | src/helper/mup_display.h:101-119 | becomes `SetPlayer` |

## Left out

- Max72xx.Max72xxDigits.constructor: requires at least one module and one digit. With `hDisplays`, `vDisplays` or `length` 0 the source builds an empty display. The constructor also requires `hDisplays * vDisplays * min(length, 8) <= 255`. Above that the `uint8_t` bitmapSize wraps, the allocation is smaller than the display, and drawing writes past it.
- DisplayDigits.DisplayDigitsMax72xx.constructor: the same two requirements, passed on to the display.
- Max72xxMatrixDisplay.Max72xxMatrix.constructor: requires `8 * hDisplays * vDisplays <= 255`. Above that the `uint8_t` `displays` and `bitmapSize` wrap, the allocation is smaller than the drawing canvas, and `drawPixel` writes past it.
- Max72xxMatrixDisplay.Max72xxMatrix.SetPosition: requires the display index and the slot `x + hDisplays * y` to lie inside the tables. The source tests only that the bitmap exists. An out-of-range slot writes into the rotation table or the output buffer that follow in the same allocation. Those three tables are separate arrays in the model, so this aliasing is not captured.
- Max72xxMatrixDisplay.Max72xxMatrix.SetRotation: requires the display index to lie inside the table. An out-of-range index writes into the output buffer that follows; that aliasing is not captured.
- SPI transport (`max72xx.h`): `sendBlock` is recorded as the sequence of blocks sent; pins, SPI transfers, power save, intensity and test mode are hardware.
- Backlight and light control: floating-point levels and PWM.
- Scheduler and pub/sub wiring: `begin`, `loop`, the command parsers, the cursor and wrap parsers, every `publish*` function, and `anonymous_counter`, which only the command parser uses.
- The item timer (`ustd::timeout`): the verdict of `duration.test()` is the `expired` parameter of a tick, and `duration.reset()` is not modelled.
- ST7735 and Adafruit-GFX-dependent code, `getTextDimensions` and the Arduino `Print` plumbing (`displayPrint`, `print`, `println`).
- HT162x hardware: `begin`, `writeCmd`, power, intensity and its flush.
- Ht162x.Ht162xDigits.constructor: the source constructor sets only the LCD type configuration. It never sets `bitmap`, `length`, `_width`, `_height`, the cursor or the wrap flag, so `fillRect` and `printFormatted` write through an unset pointer. The model's constructor supplies a geometry, a fresh bitmap, a cursor at the origin and wrap on.
- The constructors that pass a feature argument the base class does not accept; `Max72xxDigits` is built from its own constructor. The mupplet's `begin` is reduced to its state changes: `programInit`, the display's clear and flush, and the wrap flag. The scheduler wiring and the light controller are not modelled.
- The capacity of `ustd::array`: the playlist and the font lists are unbounded sequences, so `add` never fails.
- `charPos`, `lastPos` and `slidePos` are `uint16_t` in the source. The model keeps them unbounded and proves they stay non-negative. Wrap-around past 65535 is not modelled. Neither is the `int16_t` truncation of the playlist index; the playlist is taken to hold fewer than 32768 items.
- Max72xx.Max72xxDigits.SetCursor, SetCursorX, SetCursorY and the HT162x setters take their arguments as `int16_t` values already; the truncation a C++ caller gets when it passes a wider value happens at the call site and is not modelled. The cursor column in `write(c)` is not wrapped either: it only grows while it is below the width (at most 255) or negative, so it cannot pass 32767 from an `int16_t` start.
- `atol` and `atoi` overflow on numbers outside the `long` range is not modelled.
- Text is a C byte string in the source. A model `char` stands for one byte of that string, so text is modelled only for characters 0..255. Non-ASCII text is not modelled: "é" takes one cell in the model, but its two UTF-8 bytes take two underscore cells on the display. A byte of 128 or more is read as a signed `char` only in the font baseline lookup.
- Font pointers and flash reads: a font is a value holding its glyph table.
- The Adafruit canvas rotation setter is outside these sources; `SetCanvasRotation` stands in for it.
- DisplayDigits.DisplayDigitsMax72xx.ProgramLoop: the font restore `setTextFont(cur_font, 0)` is left out because it does nothing on the digit display.
- Program.IsNumber: a null pointer, which the source rejects, has no counterpart among Dafny strings.

## Findings

| source | as written | input that shows it | evidently intended | confidence | as-written member | corrected member |
|---|---|---|---|---|---|---|
| src/hardware/max72xx_digits.h:94-99 | the initialiser clamps the member `length` to 8, but the body's `length` is the parameter, so `bitmapSize` and `_width` use the unclamped count | `Max72xxDigits(cs, 1, 1, 12)`: member length 8, bitmap and width 12; the flush of digit 0 goes from offset 4 to 65532 (uint16 wrap) and reads outside the 14-byte allocation | the clamp applies to width and bitmap as well, giving 8 digits per module throughout | high (not executed) | Max72xx.OversizedLengthOverrun | Max72xx.Max72xxDigits.constructor |
