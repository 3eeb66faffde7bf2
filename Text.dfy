/** The string helpers the display code relies on. The player's parsers use
    number parsing, token lookup and `shift` from the mupplet-core library,
    and Arduino's String class for `substring` and number-to-text conversion.
    mupplet-core is not part of this model, so these functions are concrete
    stand-ins that fix the behaviour the callers rely on: C `atol`, exact
    token matching, splitting at the first delimiter, and range clamping. */
module Text {

  predicate IsDigitChar(c: char) { '0' <= c <= '9' }

  /** The white space C's `isspace` skips in front of a number. */
  predicate IsSpace(c: char) {
    c == ' ' || c == '\t' || c == '\n' || c == '\U{B}' || c == '\U{C}' || c == '\r'
  }

  predicate AllDigits(s: string) {
    forall k :: 0 <= k < |s| ==> IsDigitChar(s[k])
  }

  function DigitValue(c: char): (d: int)
    requires IsDigitChar(c)
    ensures 0 <= d <= 9
  {
    c as int - '0' as int
  }

  function DigitChar(d: int): (c: char)
    requires 0 <= d <= 9
    ensures IsDigitChar(c) && DigitValue(c) == d
  {
    ('0' as int + d) as char
  }

  /** The value of a string of decimal digits, most significant first. */
  function DigitsValue(s: string): nat
    requires AllDigits(s)
  {
    if |s| == 0 then 0 else 10 * DigitsValue(s[..|s| - 1]) + DigitValue(s[|s| - 1])
  }

  /** The length of the longest prefix made of decimal digits. */
  function DigitRun(s: string): (n: nat)
    ensures n <= |s|
    ensures AllDigits(s[..n])
    ensures n < |s| ==> !IsDigitChar(s[n])
  {
    if |s| == 0 || !IsDigitChar(s[0]) then 0
    else
      var n := 1 + DigitRun(s[1..]);
      assert s[..n] == [s[0]] + s[1..][..n - 1];
      n
  }

  /** `s` without its leading white space. */
  function SkipSpace(s: string): (t: string)
    ensures |t| <= |s| && t == s[|s| - |t|..]
    ensures |t| > 0 ==> !IsSpace(t[0])
  {
    if |s| > 0 && IsSpace(s[0]) then SkipSpace(s[1..]) else s
  }

  /** C `atol`: leading white space, an optional sign, then as many decimal
      digits as follow; no digits give 0. */
  function Atol(s: string): int
  {
    var t := SkipSpace(s);
    if |t| > 0 && (t[0] == '-' || t[0] == '+') then
      var u := t[1..];
      var m: int := DigitsValue(u[..DigitRun(u)]);
      if t[0] == '-' then -m else m
    else
      DigitsValue(t[..DigitRun(t)])
  }

  /** The decimal text of a natural number, without leading zeros. */
  function NatToString(n: nat): (s: string)
    ensures |s| >= 1 && AllDigits(s)
    ensures DigitsValue(s) == n
    ensures s[0] == '0' ==> n == 0
  {
    if n < 10 then [DigitChar(n)]
    else
      var p := NatToString(n / 10);
      var s := p + [DigitChar(n % 10)];
      assert s[..|s| - 1] == p;
      s
  }

  /** Arduino `String(long)`: the decimal text with a leading '-' when negative. */
  function IntToString(n: int): (s: string)
    ensures |s| >= 1
    ensures n >= 0 <==> IsDigitChar(s[0])
    ensures forall k :: 0 <= k < |s| ==> IsDigitChar(s[k]) || s[k] == '-'
  {
    if n < 0 then "-" + NatToString(-n) else NatToString(n)
  }

  lemma {:induction false} DigitRunOfDigits(s: string)
    requires AllDigits(s)
    ensures DigitRun(s) == |s|
  {
    if |s| > 0 {
      assert AllDigits(s[1..]);
      DigitRunOfDigits(s[1..]);
    }
  }

  /** `atol` reads back what `String(long)` wrote. */
  lemma AtolInverse(n: int)
    ensures Atol(IntToString(n)) == n
  {
    var s := IntToString(n);
    if n < 0 {
      var d := NatToString(-n);
      assert s == "-" + d;
      assert SkipSpace(s) == s;
      assert s[1..] == d;
      DigitRunOfDigits(d);
      assert d[..|d|] == d;
    } else {
      var d := NatToString(n);
      assert s == d;
      assert SkipSpace(s) == s;
      DigitRunOfDigits(d);
      assert d[..|d|] == d;
    }
  }

  /** What a C routine sees of an Arduino String through c_str(): everything
      before the first NUL. */
  function CStr(s: string): (t: string)
    ensures t <= s && '\0' !in t
    ensures |t| < |s| ==> s[|t|] == '\0'
  {
    if s == [] || s[0] == '\0' then [] else [s[0]] + CStr(s[1..])
  }

  /** A string without NUL is its own `c_str()`. */
  lemma {:induction false} CStrOfPlain(s: string)
    requires '\0' !in s
    ensures CStr(s) == s
  {
    if s != [] {
      assert '\0' !in s[1..];
      CStrOfPlain(s[1..]);
    }
  }

  /** The index of the first `c` in `s`, or -1 (Arduino `indexOf`). */
  function IndexOf(s: string, c: char): (i: int)
    ensures -1 <= i < |s|
    ensures i >= 0 ==> s[i] == c && c !in s[..i]
    ensures i == -1 <==> c !in s
  {
    if |s| == 0 then -1
    else if s[0] == c then 0
    else
      var j := IndexOf(s[1..], c);
      if j < 0 then -1 else
        assert s[..j + 1] == [s[0]] + s[1..][..j];
        j + 1
  }

  /** The index of the last `c` in `s`, or -1 (C `strrchr`). */
  function LastIndexOf(s: string, c: char): (i: int)
    ensures -1 <= i < |s|
    ensures i >= 0 ==> s[i] == c
    ensures forall k :: i < k < |s| ==> s[k] != c
    ensures i == -1 <==> c !in s
  {
    if |s| == 0 then -1
    else
      var j := LastIndexOf(s[1..], c);
      if j >= 0 then j + 1
      else if s[0] == c then 0
      else -1
  }

  /** The result of `shift`: the first field and what remains. */
  datatype Split = Split(head: string, rest: string)

  /** mupplet-core `shift`: the text up to the first delimiter is returned,
      the text after it remains; without a delimiter the whole text is
      returned and nothing remains. */
  function Shift(src: string, delim: char): (r: Split)
    ensures delim !in r.head
    ensures delim in src ==> src == r.head + [delim] + r.rest
    ensures delim !in src ==> r.head == src && r.rest == ""
  {
    if src == "" then Split("", "")
    else
      var i := IndexOf(src, delim);
      if i < 0 then Split(src, "")
      else
        assert src == src[..i] + [delim] + src[i + 1..];
        Split(src[..i], src[i + 1..])
  }

  /** A field followed by the delimiter is split off exactly. */
  lemma ShiftField(head: string, delim: char, rest: string)
    requires delim !in head
    ensures Shift(head + [delim] + rest, delim) == Split(head, rest)
  {
    var src := head + [delim] + rest;
    assert src[|head|] == delim;
    assert src[..|head|] == head;
    var i := IndexOf(src, delim);
    assert forall k :: 0 <= k < i ==> src[..i][k] == src[k];
    assert i == |head|;
    assert src[i + 1..] == rest;
  }

  /** The last field, without a delimiter, is returned whole. */
  lemma ShiftLast(field: string, delim: char)
    requires delim !in field
    ensures Shift(field, delim) == Split(field, "")
  {
  }

  /** mupplet-core `parseToken`: the index of the token equal to `arg`, or -1. */
  function ParseToken(arg: string, tokens: seq<string>): (i: int)
    ensures -1 <= i < |tokens|
    ensures i >= 0 ==> tokens[i] == arg && arg !in tokens[..i]
    ensures i == -1 <==> arg !in tokens
  {
    if |tokens| == 0 then -1
    else if tokens[0] == arg then 0
    else
      var j := ParseToken(arg, tokens[1..]);
      if j < 0 then -1 else
        assert tokens[..j + 1] == [tokens[0]] + tokens[1..][..j];
        j + 1
  }

  /** mupplet-core `parseRangedLong`: the number in `arg` when it lies in
      minVal..maxVal, `minDefault` below that range and `maxDefault` above it. */
  function ParseRangedLong(arg: string, minVal: int, maxVal: int, minDefault: int, maxDefault: int): (v: int)
    ensures minVal <= Atol(arg) <= maxVal ==> v == Atol(arg)
    ensures Atol(arg) < minVal ==> v == minDefault
    ensures Atol(arg) > maxVal && minVal <= maxVal ==> v == maxDefault
  {
    var n := Atol(arg);
    if n < minVal then minDefault else if n > maxVal then maxDefault else n
  }

  /** Arduino `String::substring(left, right)`: the bounds are swapped when
      out of order and the right one is cut to the length. */
  function Substring(s: string, left: int, right: int): (t: string)
    requires 0 <= left && 0 <= right
    ensures |t| <= |s|
    ensures left <= right && right <= |s| ==> t == s[left..right]
    ensures left >= |s| && left <= right ==> t == ""
  {
    var l := if left <= right then left else right;
    var r := if left <= right then right else left;
    if l >= |s| then "" else s[l..if r > |s| then |s| else r]
  }
}
