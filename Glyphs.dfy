/** Segment glyphs of the two digit controllers (MAX72xx and HT162x) and the
    width, in digit cells, that a character takes on a digit display.
    A segment pattern is one byte; bit 7 is the decimal point. */
module Glyphs {

  /** The decimal point bit, shared by both controllers. */
  const Dp: bv8 := 0x80

  // MAX72xx patterns for the characters with a fixed glyph
  const Max72xxSpace: bv8 := 0x00
  const Max72xxExclamation: bv8 := 0xB0
  const Max72xxQuotes: bv8 := 0x22
  const Max72xxDash: bv8 := 0x01
  const Max72xxEquals: bv8 := 0x09
  const Max72xxUnderscore: bv8 := 0x08
  const Max72xxParOpen: bv8 := 0x4E
  const Max72xxParClose: bv8 := 0x78

  /** Segment patterns of '0'..'9' on a MAX72xx digit. */
  const Max72xxDigitTable: seq<bv8> :=
    [0x7E, 0x30, 0x6D, 0x79, 0x33, 0x5B, 0x5F, 0x70, 0x7F, 0x7B]

  /** Segment patterns of 'A'..'Z' on a MAX72xx digit. */
  const Max72xxCharTable: seq<bv8> :=
    [0x77, 0x1F, 0x0D, 0x3D, 0x4F, 0x47, 0x5E, 0x37, 0x06, 0x3C, 0x07, 0x0E, 0x76,
     0x15, 0x1D, 0x67, 0xEE, 0x05, 0x5B, 0x0F, 0x3E, 0x1C, 0x1C, 0x49, 0x3B, 0x6D]

  /** Segment patterns of '0'..'9' on an HT162x digit. */
  const Ht162xDigitTable: seq<bv8> :=
    [0xBE, 0x06, 0x7C, 0x5E, 0xC6, 0xDA, 0xFA, 0x0E, 0xFE, 0xDE]

  /** Segment patterns of 'A'..'Z' on an HT162x digit. */
  const Ht162xCharTable: seq<bv8> :=
    [0xEE, 0xF2, 0x70, 0x76, 0xF8, 0xE8, 0xBA, 0xE6, 0x02, 0x36, 0xE5, 0xB0, 0xAE,
     0x62, 0x72, 0xEC, 0xCF, 0x60, 0xDA, 0xF0, 0xB6, 0x32, 0xB7, 0xE6, 0xE4, 0x7C]

  predicate IsDigit(c: char) { '0' <= c <= '9' }
  predicate IsUpper(c: char) { 'A' <= c <= 'Z' }
  predicate IsLower(c: char) { 'a' <= c <= 'z' }

  /** A control character: rendered as nothing and takes no cell. */
  predicate IsControl(c: char) { c < ' ' }

  /** A decimal separator: merged into the previous cell as the decimal point. */
  predicate IsDecimalPoint(c: char) { c == '.' || c == ',' }

  /** The characters MAX72xx maps through its switch rather than its tables. */
  predicate IsMax72xxSymbol(c: char) {
    c in {'.', ',', '!', '"', ' ', '-', '=', '(', '[', '{', ')', ']', '}', '_'}
  }

  /** Upper-case counterpart of a lower-case letter. */
  function ToUpper(c: char): (u: char)
    requires IsLower(c)
    ensures IsUpper(u) && u as int - 'A' as int == c as int - 'a' as int
  {
    (c as int - 32) as char
  }

  /** The MAX72xx glyph encoder; total, with the underscore as fallback. */
  function MapChar(c: char): (g: bv8)
    ensures IsDigit(c) ==> g == Max72xxDigitTable[c as int - '0' as int]
    ensures IsUpper(c) ==> g == Max72xxCharTable[c as int - 'A' as int]
    ensures IsLower(c) ==> g == Max72xxCharTable[c as int - 'a' as int]
    ensures IsDecimalPoint(c) ==> g == Dp
    ensures c in {'(', '[', '{'} ==> g == Max72xxParOpen
    ensures c in {')', ']', '}'} ==> g == Max72xxParClose
    ensures !IsMax72xxSymbol(c) && !IsDigit(c) && !IsUpper(c) && !IsLower(c) ==> g == Max72xxUnderscore
  {
    match c
    case '.' => Dp
    case ',' => Dp
    case '!' => Max72xxExclamation
    case '"' => Max72xxQuotes
    case ' ' => Max72xxSpace
    case '-' => Max72xxDash
    case '=' => Max72xxEquals
    case '(' => Max72xxParOpen
    case '[' => Max72xxParOpen
    case '{' => Max72xxParOpen
    case ')' => Max72xxParClose
    case ']' => Max72xxParClose
    case '}' => Max72xxParClose
    case '_' => Max72xxUnderscore
    case _ =>
      if IsDigit(c) then Max72xxDigitTable[c as int - '0' as int]
      else if IsUpper(c) then Max72xxCharTable[c as int - 'A' as int]
      else if IsLower(c) then Max72xxCharTable[c as int - 'a' as int]
      else Max72xxUnderscore
  }

  /** The HT162x glyph encoder used by its character sink and its formatter. */
  function Ht162xGlyph(c: char): (g: bv8)
    ensures c == ' ' ==> g == 0x00
    ensures c == '-' ==> g == 0x01
    ensures c == '_' ==> g == 0x08
    ensures c == '=' ==> g == 0x09
    ensures IsDigit(c) ==> g == Ht162xDigitTable[c as int - '0' as int]
    ensures IsUpper(c) ==> g == Ht162xCharTable[c as int - 'A' as int]
    ensures IsLower(c) ==> g == Ht162xCharTable[c as int - 'a' as int]
    ensures !(c in {' ', '-', '_', '='}) && !IsDigit(c) && !IsUpper(c) && !IsLower(c) ==> g == 0x08
  {
    if c == ' ' then 0x00
    else if c == '-' then 0x01
    else if c == '_' then 0x08
    else if c == '=' then 0x09
    else if IsDigit(c) then Ht162xDigitTable[c as int - '0' as int]
    else if IsUpper(c) then Ht162xCharTable[c as int - 'A' as int]
    else if IsLower(c) then Ht162xCharTable[c as int - 'a' as int]
    else 0x08
  }

  /** getCharLen of both digit controllers: the number of cells a character
      advances the cursor by. */
  function CharLen(c: char, firstChar: bool): (n: nat)
    ensures n <= 1
    ensures n == 0 <==> IsControl(c) || (IsDecimalPoint(c) && !firstChar)
  {
    if IsControl(c) then 0
    else if IsDecimalPoint(c) then (if firstChar then 1 else 0)
    else 1
  }

  /** Letters are encoded case-insensitively by the MAX72xx encoder. */
  lemma Max72xxCaseInsensitive(c: char)
    requires IsLower(c)
    ensures MapChar(c) == MapChar(ToUpper(c))
  {
    var u := ToUpper(c);
    assert !IsDigit(c) && !IsUpper(c);
    assert !IsDigit(u) && !IsLower(u);
  }

  /** Letters are encoded case-insensitively by the HT162x encoder. */
  lemma Ht162xCaseInsensitive(c: char)
    requires IsLower(c)
    ensures Ht162xGlyph(c) == Ht162xGlyph(ToUpper(c))
  {
    var u := ToUpper(c);
    assert !IsDigit(c) && !IsUpper(c);
    assert !IsDigit(u) && !IsLower(u);
  }
}
