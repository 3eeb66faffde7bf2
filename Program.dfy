/** The program items of the display player and the text forms they travel
    in: the field parsers of the item commands, with their value ranges and
    their "changed" results, the item serialiser, the parser of item command
    topics, the number check of the format command and the error text. */
module Program {
  import opened Text

  /** How an item is shown: static left, centred or right aligned text, or
      text that slides in character by character. */
  datatype Mode = Left | Center | Right | SlideIn

  /** The command tokens of the modes, in enumeration order. */
  const ModeTokens: seq<string> := ["left", "center", "right", "slidein"]

  function ModeIndex(m: Mode): (i: int)
    ensures 0 <= i < |ModeTokens|
  {
    match m
    case Left => 0
    case Center => 1
    case Right => 2
    case SlideIn => 3
  }

  function ModeOf(i: int): (m: Mode)
    requires 0 <= i < |ModeTokens|
    ensures ModeIndex(m) == i
  {
    if i == 0 then Left else if i == 1 then Center else if i == 2 then Right else SlideIn
  }

  /** The phases an item passes through while it is shown. */
  datatype ProgramState = None | FadeIn | Wait | FadeOut | Finished

  /** One entry of the playlist. The duration is the period of the item's
      timer in milliseconds; repeat 0 means forever. */
  datatype ProgramItem = ProgramItem(
    name: string,
    mode: Mode,
    duration: int,
    repeat: int,
    speed: int,
    font: int,
    color: int,
    bg: int,
    content: string)

  /** The defaults programInit installs. */
  const InitialDefaults := ProgramItem("", Left, 2000, 1, 16, 0, 65535, 0, "")

  /** The value ranges every stored item keeps: an int16 repeat count, an
      unsigned duration, a speed of at most 16 and a registered font. */
  predicate InRange(item: ProgramItem, fontCount: int) {
    && -32768 <= item.repeat <= 32767
    && item.duration >= 0
    && 0 <= item.speed <= 16
    && 0 <= item.font < fontCount
  }

  /** What a field parser returns: whether it changed the item, and the item. */
  datatype Parsed = Parsed(changed: bool, item: ProgramItem)

  function Clamp(v: int, lo: int, hi: int): int
  {
    if v < lo then lo else if v > hi then hi else v
  }

  /** parseMode: a known mode token different from the current mode. */
  function ParseMode(args: string, item: ProgramItem): (r: Parsed)
    ensures r.changed <==> r.item != item
    ensures r.changed <==> args in ModeTokens && args != ModeTokens[ModeIndex(item.mode)]
    ensures r.changed ==> ModeTokens[ModeIndex(r.item.mode)] == args
    ensures r.item == item.(mode := r.item.mode)
  {
    var t := ParseToken(args, ModeTokens);
    if t >= 0 && t != ModeIndex(item.mode) then Parsed(true, item.(mode := ModeOf(t))) else Parsed(false, item)
  }

  /** parseRepeat: a non-empty argument, clamped to 0..32767, that differs. */
  function ParseRepeat(args: string, item: ProgramItem): (r: Parsed)
    ensures r.changed <==> r.item != item
    ensures r.changed <==> |args| > 0 && Clamp(Atol(args), 0, 32767) != item.repeat
    ensures r.changed ==> r.item.repeat == Clamp(Atol(args), 0, 32767)
    ensures r.item == item.(repeat := r.item.repeat)
  {
    if |args| > 0 then
      var value := ParseRangedLong(args, 0, 32767, 0, 32767);
      if value != item.repeat then Parsed(true, item.(repeat := value)) else Parsed(false, item)
    else Parsed(false, item)
  }

  /** parseDuration: a non-empty, non-negative argument that differs. */
  function ParseDuration(args: string, item: ProgramItem): (r: Parsed)
    ensures r.changed <==> r.item != item
    ensures r.changed <==> |args| > 0 && Atol(args) >= 0 && Atol(args) != item.duration
    ensures r.changed ==> r.item.duration == Atol(args)
    ensures r.item == item.(duration := r.item.duration)
  {
    if |args| > 0 then
      var value := Atol(args);
      if value >= 0 && value != item.duration then Parsed(true, item.(duration := value)) else Parsed(false, item)
    else Parsed(false, item)
  }

  /** parseSpeed: a non-empty argument of at least 1, cut to 16, that differs. */
  function ParseSpeed(args: string, item: ProgramItem): (r: Parsed)
    ensures r.changed <==> r.item != item
    ensures r.changed <==> |args| > 0 && Atol(args) >= 1 && Clamp(Atol(args), 1, 16) != item.speed
    ensures r.changed ==> 1 <= r.item.speed <= 16 && r.item.speed == Clamp(Atol(args), 1, 16)
    ensures r.item == item.(speed := r.item.speed)
  {
    if |args| > 0 then
      var value := ParseRangedLong(args, 1, 16, 0, 16);
      if value != 0 && value != item.speed then Parsed(true, item.(speed := value)) else Parsed(false, item)
    else Parsed(false, item)
  }

  /** parseFont: a non-empty argument naming a registered font that differs. */
  function ParseFont(args: string, item: ProgramItem, fontCount: int): (r: Parsed)
    ensures r.changed <==> r.item != item
    ensures r.changed <==> |args| > 0 && 0 <= Atol(args) < fontCount && Atol(args) != item.font
    ensures r.changed ==> r.item.font == Atol(args)
    ensures r.item == item.(font := r.item.font)
  {
    if |args| > 0 then
      var value := Atol(args);
      if value >= 0 && value < fontCount && value != item.font then Parsed(true, item.(font := value))
      else Parsed(false, item)
    else Parsed(false, item)
  }

  /** The number of the five parsed fields in which two items differ. */
  function ChangedFields(a: ProgramItem, b: ProgramItem): nat
  {
    (if a.mode != b.mode then 1 else 0) + (if a.repeat != b.repeat then 1 else 0)
    + (if a.duration != b.duration then 1 else 0) + (if a.speed != b.speed then 1 else 0)
    + (if a.font != b.font then 1 else 0)
  }

  /** parseDefaults: the field parsers chained with a short-circuit "or", so
      parsing stops at the first field that changes the defaults. */
  function ParseDefaults(args: string, item: ProgramItem, fontCount: int): (r: Parsed)
    ensures r.changed <==> r.item != item
    ensures ChangedFields(item, r.item) <= 1
    ensures r.item.name == item.name && r.item.content == item.content
    ensures r.item.color == item.color && r.item.bg == item.bg
    ensures InRange(item, fontCount) ==> InRange(r.item, fontCount)
  {
    var s1 := Shift(args, ';');
    var p1 := ParseMode(s1.head, item);
    if p1.changed then p1 else
    var s2 := Shift(s1.rest, ';');
    var p2 := ParseRepeat(s2.head, item);
    if p2.changed then p2 else
    var s3 := Shift(s2.rest, ';');
    var p3 := ParseDuration(s3.head, item);
    if p3.changed then p3 else
    var s4 := Shift(s3.rest, ';');
    var p4 := ParseSpeed(s4.head, item);
    if p4.changed then p4 else
    var s5 := Shift(s4.rest, ';');
    ParseFont(s5.head, item, fontCount)
  }

  /** The five positional fields of an item command and the text after them. */
  datatype Fields = Fields(mode: string, repeat: string, duration: string, speed: string, font: string,
                           content: string)

  /** Five shifts at ';': everything after the fifth ';' is left as the
      content, whatever it contains. */
  function SplitFields(args: string): Fields
  {
    var s1 := Shift(args, ';');
    var s2 := Shift(s1.rest, ';');
    var s3 := Shift(s2.rest, ';');
    var s4 := Shift(s3.rest, ';');
    var s5 := Shift(s4.rest, ';');
    Fields(s1.head, s2.head, s3.head, s4.head, s5.head, s5.rest)
  }

  /** The five field parsers in turn; the text after the fields becomes the
      content. */
  function ParseFields(item: ProgramItem, f: Fields, fontCount: int): (r: ProgramItem)
    ensures r.name == item.name && r.color == item.color && r.bg == item.bg
  {
    var i1 := ParseMode(f.mode, item).item;
    var i2 := ParseRepeat(f.repeat, i1).item;
    var i3 := ParseDuration(f.duration, i2).item;
    var i4 := ParseSpeed(f.speed, i3).item;
    var i5 := ParseFont(f.font, i4, fontCount).item;
    i5.(content := f.content)
  }

  /** The arguments of addItem and replaceItem: five positional fields, then
      the content. */
  function ApplyFields(item: ProgramItem, args: string, fontCount: int): (r: ProgramItem)
    ensures r.name == item.name && r.color == item.color && r.bg == item.bg
  {
    ParseFields(item, SplitFields(args), fontCount)
  }

  /** Parsed arguments keep an item within its value ranges. */
  lemma ApplyFieldsInRange(item: ProgramItem, args: string, fontCount: int)
    requires InRange(item, fontCount)
    ensures InRange(ApplyFields(item, args, fontCount), fontCount)
  {
    var f := SplitFields(args);
    var i1 := ParseMode(f.mode, item).item;
    assert InRange(i1, fontCount);
    var i2 := ParseRepeat(f.repeat, i1).item;
    assert InRange(i2, fontCount);
    var i3 := ParseDuration(f.duration, i2).item;
    assert InRange(i3, fontCount);
    var i4 := ParseSpeed(f.speed, i3).item;
    assert InRange(i4, fontCount);
    var i5 := ParseFont(f.font, i4, fontCount).item;
    assert InRange(i5, fontCount);
  }

  /** A field followed by the ';' separator and the rest of the text. */
  function Field(field: string, rest: string): string
  {
    field + ";" + rest
  }

  /** getItemString: mode;repeat;duration;speed;font and, when there is
      content, ';' and the content. */
  function ItemString(item: ProgramItem): string
  {
    Field(ModeTokens[ModeIndex(item.mode)],
      Field(IntToString(item.repeat),
        Field(IntToString(item.duration),
          Field(IntToString(item.speed),
            if |item.content| > 0 then Field(IntToString(item.font), item.content) else IntToString(item.font)))))
  }

  lemma NoSemicolonInNumber(n: int)
    ensures ';' !in IntToString(n)
  {
    var s := IntToString(n);
    assert forall k :: 0 <= k < |s| ==> s[k] != ';';
  }

  lemma ModeTokenParses(m: Mode)
    ensures ParseToken(ModeTokens[ModeIndex(m)], ModeTokens) == ModeIndex(m)
    ensures ';' !in ModeTokens[ModeIndex(m)]
  {
    var i := ModeIndex(m);
    assert ModeTokens[i] !in ModeTokens[..i];
  }

  /** The mode field parses back into the serialised mode. */
  lemma ModeRoundTrip(item: ProgramItem, m: Mode)
    ensures ParseMode(ModeTokens[ModeIndex(m)], item).item == item.(mode := m)
  {
    ModeTokenParses(m);
  }

  /** Five fields without ';', joined by ';' and followed by ";content"
      when there is content, split back into those fields and that content. */
  lemma JoinedFields(f1: string, f2: string, f3: string, f4: string, f5: string, content: string)
    requires ';' !in f1 && ';' !in f2 && ';' !in f3 && ';' !in f4 && ';' !in f5
    ensures SplitFields(Field(f1, Field(f2, Field(f3, Field(f4, if |content| > 0 then Field(f5, content) else f5)))))
            == Fields(f1, f2, f3, f4, f5, content)
  {
    var r4 := if |content| > 0 then Field(f5, content) else f5;
    var r3 := Field(f4, r4);
    var r2 := Field(f3, r3);
    var r1 := Field(f2, r2);
    ShiftField(f1, ';', r1);
    var s1 := Shift(Field(f1, r1), ';');
    assert s1.head == f1 && s1.rest == r1;
    ShiftField(f2, ';', r2);
    var s2 := Shift(s1.rest, ';');
    assert s2.head == f2 && s2.rest == r2;
    ShiftField(f3, ';', r3);
    var s3 := Shift(s2.rest, ';');
    assert s3.head == f3 && s3.rest == r3;
    ShiftField(f4, ';', r4);
    var s4 := Shift(s3.rest, ';');
    assert s4.head == f4 && s4.rest == r4;
    var s5 := Shift(s4.rest, ';');
    if |content| > 0 {
      ShiftField(f5, ';', content);
      assert s5 == Split(f5, content);
    } else {
      assert content == "";
      ShiftLast(f5, ';');
      assert s5 == Split(f5, content);
    }
  }

  /** The item string splits into the serialised fields and the content. */
  lemma ItemStringFields(item: ProgramItem)
    ensures SplitFields(ItemString(item))
            == Fields(ModeTokens[ModeIndex(item.mode)], IntToString(item.repeat), IntToString(item.duration),
                      IntToString(item.speed), IntToString(item.font), item.content)
  {
    ModeTokenParses(item.mode);
    NoSemicolonInNumber(item.repeat);
    NoSemicolonInNumber(item.duration);
    NoSemicolonInNumber(item.speed);
    NoSemicolonInNumber(item.font);
    JoinedFields(ModeTokens[ModeIndex(item.mode)], IntToString(item.repeat), IntToString(item.duration),
                 IntToString(item.speed), IntToString(item.font), item.content);
  }

  /** The printed numbers of an item parse back into its fields. */
  lemma ParseFieldsBack(base: ProgramItem, item: ProgramItem, fontCount: int)
    requires 0 <= item.repeat <= 32767 && item.duration >= 0 && 1 <= item.speed <= 16
    requires 0 <= item.font < fontCount
    ensures ParseFields(base, Fields(ModeTokens[ModeIndex(item.mode)], IntToString(item.repeat),
                                     IntToString(item.duration), IntToString(item.speed),
                                     IntToString(item.font), item.content), fontCount)
            == base.(mode := item.mode, repeat := item.repeat, duration := item.duration,
                     speed := item.speed, font := item.font, content := item.content)
  {
    ModeRoundTrip(base, item.mode);
    var i1 := base.(mode := item.mode);
    AtolInverse(item.repeat);
    var i2 := ParseRepeat(IntToString(item.repeat), i1).item;
    assert i2 == i1.(repeat := item.repeat);
    AtolInverse(item.duration);
    var i3 := ParseDuration(IntToString(item.duration), i2).item;
    assert i3 == i2.(duration := item.duration);
    AtolInverse(item.speed);
    var i4 := ParseSpeed(IntToString(item.speed), i3).item;
    assert i4 == i3.(speed := item.speed);
    AtolInverse(item.font);
    var i5 := ParseFont(IntToString(item.font), i4, fontCount).item;
    assert i5 == i4.(font := item.font);
  }

  /** The fields the serialiser writes are read back by the parsers of
      addItem: parsing the item string into any item gives that item the
      serialised mode, repeat, duration, speed, font and content. */
  lemma ItemStringRoundTrip(base: ProgramItem, item: ProgramItem, fontCount: int)
    requires 0 <= item.repeat <= 32767 && item.duration >= 0 && 1 <= item.speed <= 16
    requires 0 <= item.font < fontCount
    ensures ApplyFields(base, ItemString(item), fontCount)
            == base.(mode := item.mode, repeat := item.repeat, duration := item.duration,
                     speed := item.speed, font := item.font, content := item.content)
  {
    ItemStringFields(item);
    ParseFieldsBack(base, item, fontCount);
  }

  // ---------------------------------------------------------------------------
  // Item command topics

  /** The two parts of an item command topic `<name>/<operation>`. */
  datatype ItemCommand = NotItem | ItemCommand(name: string, operation: string)

  /** parseItemCommand: the topic is split at its last '/'; both parts must
      be non-empty. */
  function ParseItemCommand(command: string): (r: ItemCommand)
    ensures r.ItemCommand? ==>
              CStr(command) == r.name + "/" + r.operation && |r.name| > 0 && |r.operation| > 0
              && '/' !in r.operation
  {
    var t := CStr(command);
    var k := LastIndexOf(t, '/');
    if k < 0 then NotItem
    else
      var name := t[..k];
      var operation := t[k + 1..];
      assert t == name + "/" + operation;
      assert forall j :: 0 <= j < |operation| ==> operation[j] == t[k + 1 + j];
      if |name| > 0 && |operation| > 0 then ItemCommand(name, operation) else NotItem
  }

  /** A topic built from a name and an operation without '/' is parsed back
      into them; the name itself may contain '/'. */
  lemma ItemCommandRoundTrip(name: string, operation: string)
    requires |name| > 0 && |operation| > 0
    requires '/' !in operation && '\0' !in name && '\0' !in operation
    ensures ParseItemCommand(name + "/" + operation) == ItemCommand(name, operation)
  {
    var command := name + "/" + operation;
    CStrOfPlain(command);
    var k := LastIndexOf(command, '/');
    assert command[|name|] == '/';
    assert forall j :: |name| < j < |command| ==> command[j] == operation[j - |name| - 1];
    assert k == |name|;
    assert command[..k] == name;
    assert command[k + 1..] == operation;
  }

  // ---------------------------------------------------------------------------
  // Number check and error text

  /** The text after an optional leading '-' consists of digits with at most
      one '.', and none when an integer is asked for. */
  predicate NumberBody(body: string, integer: bool) {
    && (forall k :: 0 <= k < |body| ==> IsDigitChar(body[k]) || (!integer && body[k] == '.'))
    && (forall j, k :: 0 <= j < k < |body| && body[j] == '.' ==> body[k] != '.')
  }

  /** What isNumber accepts, read up to the first NUL. */
  predicate NumberText(value: string, integer: bool) {
    var t := CStr(value);
    var start := if |t| > 0 && t[0] == '-' then 1 else 0;
    NumberBody(t[start..], integer)
  }

  /** A number body extended by one character. */
  lemma NumberBodySnoc(body: string, c: char, integer: bool)
    ensures NumberBody(body + [c], integer) <==>
            NumberBody(body, integer) && (IsDigitChar(c) || (!integer && c == '.' && '.' !in body))
  {
    var b := body + [c];
    assert forall k :: 0 <= k < |body| ==> b[k] == body[k];
    assert b[|body|] == c;
    if NumberBody(b, integer) {
      assert NumberBody(body, integer);
      assert forall j :: 0 <= j < |body| && body[j] == '.' ==> b[j] == '.' && b[|body|] != '.';
    }
    if NumberBody(body, integer) && (IsDigitChar(c) || (!integer && c == '.' && '.' !in body)) {
      forall j, k | 0 <= j < k < |b| && b[j] == '.'
        ensures b[k] != '.'
      {
        if k == |body| {
          assert body[j] == '.';
        }
      }
    }
  }

  /** A text with a prefix that is not a number body is not one either. */
  lemma NumberBodyPrefix(body: string, n: nat, integer: bool)
    requires n <= |body| && !NumberBody(body[..n], integer)
    ensures !NumberBody(body, integer)
  {
  }

  /** isNumber: an optional '-', then digits and at most one decimal point. */
  method IsNumber(value: string, integer: bool) returns (ok: bool)
    ensures ok == NumberText(value, integer)
  {
    ghost var t := CStr(value);
    var i := 0;
    if |value| > 0 && value[0] == '-' {
      i := 1;
    }
    ghost var start := i;
    assert start == if |t| > 0 && t[0] == '-' then 1 else 0;
    var decimalPoint := false;
    while i < |value| && value[i] != '\0'
      invariant start <= i <= |t|
      invariant NumberBody(t[start..i], integer)
      invariant decimalPoint <==> '.' in t[start..i]
    {
      var c := value[i];
      assert |t| < |value| ==> value[|t|] == '\0';
      assert i < |t| && t == value[..|t|];
      assert t[start..i + 1] == t[start..i] + [c];
      NumberBodySnoc(t[start..i], c, integer);
      if c < '0' || c > '9' {
        if integer || decimalPoint || c != '.' {
          assert t[start..][..i + 1 - start] == t[start..i + 1];
          NumberBodyPrefix(t[start..], i + 1 - start, integer);
          return false;
        }
        decimalPoint := true;
      }
      i := i + 1;
    }
    assert t[start..i] == t[start..];
    return true;
  }

  /** isNumber accepts the empty text and a lone '-'. */
  lemma EmptyIsNumber(integer: bool)
    ensures NumberText("", integer) && NumberText("-", integer)
  {
    assert CStr("-") == "-";
  }

  /** Every number the player prints passes the integer check. */
  lemma {:induction false} PrintedIntegerIsNumber(n: int)
    ensures NumberText(IntToString(n), true)
  {
    var s := IntToString(n);
    assert forall k :: 0 <= k < |s| ==> s[k] != '\0';
    CStrOfPlain(s);
    if n < 0 {
      assert s[1..] == NatToString(-n);
    }
  }

  /** The error text of displayError: the longest of "Error", "Err" and "E"
      that fits the width. */
  function ErrorText(w: int): (s: string)
    ensures 1 <= |s| <= 5 && s == "Error"[..|s|]
    ensures w >= 1 ==> |s| <= w
    ensures w >= 3 ==> |s| >= 3
    ensures w >= 5 ==> |s| == 5
  {
    if w >= 5 then "Error" else if w >= 3 then "Err" else "E"
  }
}
