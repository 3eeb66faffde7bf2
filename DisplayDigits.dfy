/** The MAX72xx digit display mupplet with its program player: the player
    fields of the display base class, updated in place by the tick phases and
    the playlist edits, on top of a Max72xxDigits frame buffer. Every method
    is proved to move the object from the player value `Model()` to the value
    the corresponding function of ProgramPlayer computes. */
module DisplayDigits {
  import opened Glyphs
  import opened DigitFormat
  import opened Text
  import opened Ints
  import opened Program
  import opened ProgramPlayer
  import opened Max72xx
  import Fonts

  /** getTextFontSize of the digit display: one cell per character, one row
      per line, baseline 0. */
  const DigitFontSize := Fonts.FontSize(0, 1, 1)

  /** getTextFontCount of the digit display: the built-in font only. */
  const DigitFontCount := 1

  /** Every character that takes a cell on a digit display advances the
      cursor by the font's xAdvance, and a line is the font's yAdvance high. */
  lemma DigitFontMetrics(c: char, firstChar: bool)
    requires !IsControl(c) && !IsDecimalPoint(c)
    ensures CharLen(c, firstChar) == DigitFontSize.xAdvance
    ensures DigitFontSize.Valid() && DigitFontSize.yAdvance == 1 && DigitFontSize.baseLine == 0
  {
  }

  /** With a single font the font field of an item never changes: the only
      registered font is 0, which every item already has. */
  lemma DigitFontFixed(args: string, item: ProgramItem)
    requires item.font == 0
    ensures !ParseFont(args, item, DigitFontCount).changed
    ensures ParseFont(args, item, DigitFontCount).item == item
  {
  }

  /** The display's geometry is a valid player geometry. */
  lemma GeometryOf(d: Max72xxDigits)
    requires d.Valid()
    ensures Geometry(d.Lay(), d.Modules()).Valid()
  {
    assert d.hDisplays * d.vDisplays >= 1 * d.vDisplays;
    assert d.hDisplays * d.vDisplays * d.length == d.hDisplays * d.length * d.vDisplays;
  }

  class DisplayDigitsMax72xx {
    const display: Max72xxDigits
    var program: seq<ProgramItem>
    var defaultItem: ProgramItem
    var programCounter: int
    var programState: ProgramState
    var programPos: int
    var programWidth: int
    var programHeight: int
    var delayCtr: int
    var charPos: int
    var lastPos: int
    var slidePos: int
    var charX: int
    var charY: int

    function Geo(): Geometry
    {
      Geometry(display.Lay(), display.Modules())
    }

    /** The frame buffer, cursor, wrap flag and sent blocks of the display. */
    function Shown(): Screen
      reads display, display.bitmap
    {
      Screen(display.bitmap[..], display.cursorX, display.cursorY, display.wrap, display.sent)
    }

    /** The player value the fields and the display hold. */
    function Model(): Player
      reads this, display, display.bitmap
    {
      Player(program, defaultItem, programCounter, programState, programPos, programWidth, programHeight,
             Slide(delayCtr, charPos, lastPos, slidePos, charX, charY), Shown())
    }

    ghost predicate Valid()
      reads this, display, display.bitmap
    {
      display.Valid() && ProgramPlayer.Valid(Model(), Geo(), DigitFontCount)
    }

    /** The mupplet with its display, as begin() leaves it: programInit has
        run, the display's begin has cleared and flushed the frame buffer,
        and text wrap is off. */
    constructor (hDisplays: int, vDisplays: int, length: int)
      requires 1 <= hDisplays && 1 <= vDisplays && 1 <= length
      requires hDisplays * vDisplays * Min(length, 8) <= 255
      ensures Valid() && fresh(display) && fresh(display.bitmap)
      ensures display.hDisplays == hDisplays && display.vDisplays == vDisplays && display.length == Min(length, 8)
      ensures Model() == Initial(Shown())
      ensures forall i :: 0 <= i < |Shown().cells| ==> Shown().cells[i] == 0
      ensures Shown().sent == FlushBlocks(Shown().cells, display.length, display.Modules())
      ensures Shown().cursorX == 0 && Shown().cursorY == 0 && !Shown().wrap
    {
      display := new Max72xxDigits(hDisplays, vDisplays, length);
      program := [];
      defaultItem := InitialDefaults;
      programPos, programWidth, programHeight := -1, 0, 0;
      programCounter := 0;
      programState := None;
      delayCtr, charPos, lastPos, slidePos, charX, charY := 0, 0, 0, 0, 0, 0;
      new;
      display.Begin();
      display.SetTextWrap(false);
      GeometryOf(display);
    }

    // -------------------------------------------------------------------------
    // Display hooks

    /** displayFormat: printFormatted, then the flush; font and colours are
        not used by the digit display. */
    method DisplayFormat(x: int, y: int, w: int, align: int, content: string) returns (fits: bool)
      requires Valid()
      modifies display, display.bitmap
      ensures Valid()
      ensures Model() == old(Model()).(screen := Format(Geo(), old(Shown()), x, y, w, align, content))
      ensures fits == FormatFits(display.Lay(), x, y, w, content, MapChar)
    {
      fits := display.PrintFormatted(x, y, w, align, content);
      display.Flush();
    }

    /** displayClear: fillRect with the blank pattern, then the flush. */
    method DisplayClear(x: int, y: int, w: int, h: int)
      requires Valid()
      modifies display, display.bitmap
      ensures Valid()
      ensures Model() == old(Model()).(screen := Clear(Geo(), old(Shown()), x, y, w, h))
    {
      display.FillRect(x, y, w, h, 0);
      display.Flush();
    }

    /** displayClear with a background colour: the colour is ignored. */
    method DisplayClearBackground(x: int, y: int, w: int, h: int, bg: int)
      requires Valid()
      modifies display, display.bitmap
      ensures Valid()
      ensures Model() == old(Model()).(screen := Clear(Geo(), old(Shown()), x, y, w, h))
    {
      DisplayClear(x, y, w, h);
    }

    /** displayError: the longest of "Error", "Err" and "E" that fits. */
    method DisplayError(x: int, y: int, w: int, align: int)
      requires Valid()
      modifies display, display.bitmap
      ensures Valid()
      ensures Model() == old(Model()).(screen := Format(Geo(), old(Shown()), x, y, w, align, ErrorText(w)))
    {
      if w >= 5 {
        var _ := DisplayFormat(x, y, w, align, "Error");
      } else if w >= 3 {
        var _ := DisplayFormat(x, y, w, align, "Err");
      } else {
        var _ := DisplayFormat(x, y, w, align, "E");
      }
    }

    /** initNextCharDimensions: the scanner loop over the current item. */
    method InitNextCharDimensions() returns (found: bool)
      requires Valid() && 0 <= programCounter < |program|
      modifies this
      ensures Valid()
      ensures var content := old(program[programCounter].content);
              && found == Scan(content, old(charPos), old(lastPos), old(charX), old(charY)).found
              && Model() == old(Model()).(slide := ScanSlide(content, old(Model().slide), old(charPos), old(lastPos)))
    {
      var content := program[programCounter].content;
      ghost var target := Scan(content, charPos, lastPos, charX, charY);
      while charPos < |content|
        invariant program == old(program) && programCounter == old(programCounter) && defaultItem == old(defaultItem)
        invariant programState == old(programState) && programPos == old(programPos)
        invariant programWidth == old(programWidth) && programHeight == old(programHeight)
        invariant delayCtr == old(delayCtr) && slidePos == old(slidePos)
        invariant 0 <= charPos && 0 <= lastPos && 0 <= charX
        invariant Scan(content, charPos, lastPos, charX, charY) == target
        decreases |content| - charPos
      {
        charX := CharLen(content[charPos], false);
        charY := 1;
        if charX != 0 {
          if content[charPos] == ' ' {
            lastPos := lastPos + charX;
          } else {
            return true;
          }
        } else if content[charPos] == ' ' {
          // a space is one cell wide, so this branch of the source is dead
          assert false;
        }
        charPos := charPos + 1;
      }
      return false;
    }

    // -------------------------------------------------------------------------
    // The tick

    /** startProgramItem. */
    method StartProgramItem()
      requires Valid() && programState == None && programCounter < |program|
      modifies this, display, display.bitmap
      ensures Valid()
      ensures Model() == Start(Geo(), old(Model()))
    {
      var item := program[programCounter];
      match item.mode
      case Left =>
        var _ := DisplayFormat(0, programPos, programWidth, AlignLeft, item.content);
        programState := Wait;
      case Center =>
        var _ := DisplayFormat(0, programPos, programWidth, AlignCenter, item.content);
        programState := Wait;
      case Right =>
        var _ := DisplayFormat(0, programPos, programWidth, AlignRight, item.content);
        programState := Wait;
      case SlideIn =>
        charPos := 0;
        lastPos := 0;
        delayCtr := Byte(17 - item.speed);
        slidePos := display.width;
        var found := InitNextCharDimensions();
        if found {
          DisplayClear(0, programPos, programWidth, programHeight);
          programState := FadeIn;
        } else {
          var _ := DisplayFormat(0, programPos, programWidth, AlignLeft, item.content);
          programState := Wait;
        }
    }

    /** fadeInProgramItem. */
    method FadeInProgramItem()
      requires Valid() && programState == FadeIn && programCounter < |program|
      modifies this, display, display.bitmap
      ensures Valid()
      ensures Model() == FadeInStep(Geo(), old(Model()))
    {
      ghost var p0 := Model();
      var item := program[programCounter];
      if item.mode == SlideIn {
        delayCtr := Byte(delayCtr - 1);
        assert Model() == p0.(slide := p0.slide.(delayCtr := delayCtr));
        if delayCtr != 0 {
          return;
        }
        AdvanceProgramItem();
      } else {
        FadeInEnd();
      }
    }

    /** The part of fadeInProgramItem after the delay has run out. */
    method AdvanceProgramItem()
      requires Valid() && programState == FadeIn && programCounter < |program|
      requires program[programCounter].mode == SlideIn
      modifies this, display, display.bitmap
      ensures Valid()
      ensures Model() == Advance(Geo(), old(Model()))
    {
      var item := program[programCounter];
      delayCtr := Byte(17 - item.speed);
      var sp := slidePos - 1;
      var _ := DisplayFormat(sp, programPos, programWidth - sp, AlignLeft,
                             Substring(item.content, charPos, charPos + 1));
      if sp <= lastPos {
        ArriveProgramItem();
      } else {
        slidePos := sp;
      }
    }

    /** The part of fadeInProgramItem once the character is in place. */
    method ArriveProgramItem()
      requires Valid() && programState == FadeIn && programCounter < |program|
      requires program[programCounter].mode == SlideIn
      modifies this
      ensures Valid()
      ensures Model() == Arrive(Geo(), old(Model()))
    {
      lastPos := lastPos + charX;
      slidePos := display.width;
      if lastPos >= slidePos {
        FadeInEnd();
        return;
      }
      charPos := charPos + 1;
      var found := InitNextCharDimensions();
      if !found {
        FadeInEnd();
      }
    }

    /** fadeInEnd: the item waits (its timer restarts, which is not modelled). */
    method FadeInEnd()
      requires Valid() && (programState == FadeIn || programState == Wait)
      modifies this
      ensures Valid()
      ensures Model() == old(Model()).(state := Wait)
    {
      programState := Wait;
    }

    /** waitProgramItem: `expired` is the verdict of the item's timer. */
    method WaitProgramItem(expired: bool)
      requires Valid() && programState == Wait
      modifies this
      ensures Valid()
      ensures Model() == WaitStep(old(Model()), expired)
    {
      if expired {
        programState := FadeOut;
      }
    }

    /** fadeOutProgramItem: no fade-out effect; ends at once. */
    method FadeOutProgramItem()
      requires Valid() && programState == FadeOut
      modifies this
      ensures Valid()
      ensures Model() == FadeOutStep(old(Model()))
    {
      FadeOutEnd();
    }

    /** fadeOutEnd. */
    method FadeOutEnd()
      requires Valid() && programState == FadeOut
      modifies this
      ensures Valid()
      ensures Model() == FadeOutStep(old(Model()))
    {
      programState := Finished;
    }

    /** endProgramItem: the repeat count is decremented in the stored item. */
    method EndProgramItem()
      requires Valid() && programCounter < |program|
      modifies this
      ensures Valid()
      ensures Model() == EndStep(Geo(), old(Model()))
    {
      EndStepInRange(Geo(), Model(), DigitFontCount);
      var item := program[programCounter];
      programState := None;
      if item.repeat != 0 {
        var repeat := Int16(item.repeat - 1);
        program := program[programCounter := item.(repeat := repeat)];
        if repeat != 0 {
          programCounter := programCounter + 1;
        } else {
          program := program[..programCounter] + program[programCounter + 1..];
        }
      } else {
        programCounter := programCounter + 1;
      }
      if programCounter >= |program| {
        programCounter := 0;
      }
    }

    /** programLoop: one tick of the player; `expired` is the verdict of the
        current item's timer. The font restore does nothing on the digit
        display. */
    method ProgramLoop(expired: bool)
      requires Valid()
      modifies this, display, display.bitmap
      ensures Valid()
      ensures Model() == Loop(Geo(), old(Model()), expired)
    {
      if |program| == 0 || programHeight == 0 || programPos < 0 {
        return;
      }
      var wrap := display.wrap;
      var x, y := display.cursorX, display.cursorY;
      ShowProgramItem();
      RetireProgramItem(expired);
      if |program| == 0 {
        DisplayClear(0, programPos, programWidth, programHeight);
      }
      display.SetTextWrap(wrap);
      display.SetCursor(x, y);
    }

    /** The first half of a tick: start the item if it has not started,
        then one fade-in step. */
    method ShowProgramItem()
      requires Valid() && programCounter < |program|
      modifies this, display, display.bitmap
      ensures Valid()
      ensures Model() == Show(Geo(), old(Model()))
    {
      if programState == None {
        StartProgramItem();
      }
      if programState == FadeIn {
        FadeInProgramItem();
      }
    }

    /** The second half of a tick: wait, fade out and end the item. */
    method RetireProgramItem(expired: bool)
      requires Valid() && programCounter < |program|
      modifies this
      ensures Valid()
      ensures Model() == Retire(Geo(), old(Model()), expired)
    {
      if programState == Wait {
        WaitProgramItem(expired);
      }
      if programState == FadeOut {
        FadeOutProgramItem();
      }
      if programState == Finished {
        EndProgramItem();
      }
    }

    /** changedProgramItem for the current item. */
    method ChangedProgramItem()
      requires Valid() && programCounter < |program|
      modifies this, display, display.bitmap
      ensures Valid()
      ensures Model() == Changed(Geo(), old(Model()))
    {
      var item := program[programCounter];
      match item.mode
      case Left =>
        var _ := DisplayFormat(0, programPos, programWidth, AlignLeft, item.content);
      case Center =>
        var _ := DisplayFormat(0, programPos, programWidth, AlignCenter, item.content);
      case Right =>
        var _ := DisplayFormat(0, programPos, programWidth, AlignRight, item.content);
      case SlideIn =>
        if programState == FadeIn && (|item.content| == 0 || charPos < |item.content| - 1) {
          var _ := DisplayFormat(0, programPos, programWidth, AlignLeft, Substring(item.content, 0, charPos));
          lastPos := display.cursorX;
          var _ := InitNextCharDimensions();
        } else {
          var _ := DisplayFormat(0, programPos, programWidth, AlignLeft, item.content);
          programState := Wait;
        }
    }

    // -------------------------------------------------------------------------
    // Playlist edits

    /** The five field parsers of addItem and replaceItem, each on the field
        shifted off the front of the arguments; the rest is the content. */
    method ParseItem(item: ProgramItem, args: string) returns (r: ProgramItem)
      ensures r == ApplyFields(item, args, DigitFontCount)
    {
      var s := Shift(args, ';');
      r := ParseMode(s.head, item).item;
      s := Shift(s.rest, ';');
      r := ParseRepeat(s.head, r).item;
      s := Shift(s.rest, ';');
      r := ParseDuration(s.head, r).item;
      s := Shift(s.rest, ';');
      r := ParseSpeed(s.head, r).item;
      s := Shift(s.rest, ';');
      r := ParseFont(s.head, r, DigitFontCount).item;
      r := r.(content := s.rest);
    }

    /** addItem: returns the index of the new item. */
    method AddItem(name: string, args: string) returns (index: int)
      requires Valid()
      modifies this
      ensures Valid()
      ensures Model() == ProgramPlayer.AddItem(old(Model()), name, args, DigitFontCount)
      ensures index == |old(program)| && program[index].name == name
    {
      ProgramPlayer.AddItemValid(Geo(), Model(), name, args, DigitFontCount);
      var item := ParseItem(defaultItem.(name := name), args);
      program := program + [item];
      index := |program| - 1;
    }

    /** replaceItem: returns the index, or -1 for an invalid one. */
    method ReplaceItem(i: int, args: string) returns (index: int)
      requires Valid()
      modifies this, display, display.bitmap
      ensures Valid()
      ensures Model() == ProgramPlayer.ReplaceItem(Geo(), old(Model()), i, args, DigitFontCount)
      ensures index == if 0 <= i < |old(program)| then i else -1
    {
      if i < 0 || i > |program| - 1 {
        return -1;
      }
      var item := ParseItem(program[i], args);
      ApplyFieldsInRange(program[i], args, DigitFontCount);
      StoreItem(i, item);
      if programCounter == i {
        ChangedProgramItem();
      }
      return i;
    }

    /** Item i of the playlist becomes `item`; nothing else changes. */
    method StoreItem(i: int, item: ProgramItem)
      requires Valid() && 0 <= i < |program| && InRange(item, DigitFontCount)
      modifies this
      ensures Valid()
      ensures Model() == old(Model()).(program := old(program)[i := item])
    {
      program := program[i := item];
    }

    /** addContent: returns the new length of the playlist, one more than the
        index of the new item. */
    method AddContent(name: string, args: string) returns (n: int)
      requires Valid()
      modifies this
      ensures Valid()
      ensures Model() == ProgramPlayer.AddContent(old(Model()), name, args)
      ensures n == |old(program)| + 1 && program[n - 1].name == name
    {
      program := program + [defaultItem.(name := name, content := args)];
      n := |program|;
    }

    /** replaceContent: returns the index, or -1 for an invalid one. */
    method ReplaceContent(i: int, args: string) returns (index: int)
      requires Valid()
      modifies this, display, display.bitmap
      ensures Valid()
      ensures Model() == ProgramPlayer.ReplaceContent(Geo(), old(Model()), i, args)
      ensures index == if 0 <= i < |old(program)| then i else -1
    {
      if i < 0 || i > |program| - 1 {
        return -1;
      }
      ghost var q := Model().(program := program[i := program[i].(content := args)]);
      program := program[i := program[i].(content := args)];
      assert Model() == q;
      if programCounter == i {
        ChangedProgramItem();
      }
      return i;
    }

    /** jumpItem: returns whether the index was valid. */
    method JumpItem(i: int) returns (ok: bool)
      requires Valid()
      modifies this
      ensures Valid()
      ensures Model() == ProgramPlayer.JumpItem(old(Model()), i)
      ensures ok == (0 <= i < |old(program)|)
    {
      if i < 0 || i > |program| - 1 {
        return false;
      }
      programCounter := i;
      programState := None;
      return true;
    }

    /** clearItem: returns whether the index was valid. */
    method ClearItem(i: int) returns (ok: bool)
      requires Valid()
      modifies this, display, display.bitmap
      ensures Valid()
      ensures Model() == ProgramPlayer.ClearItem(Geo(), old(Model()), i)
      ensures ok == (0 <= i < |old(program)|)
    {
      ClearItemValid(Geo(), Model(), i, DigitFontCount);
      if i < 0 || i > |program| - 1 {
        return false;
      }
      program := program[..i] + program[i + 1..];
      if programCounter > i {
        programCounter := programCounter - 1;
      } else if programCounter == i {
        programState := None;
        if programCounter >= |program| {
          programCounter := 0;
        }
      }
      if |program| == 0 {
        DisplayClear(0, programPos, programWidth, programHeight);
      }
      return true;
    }

    /** clearItems. */
    method ClearItems()
      requires Valid()
      modifies this, display, display.bitmap
      ensures Valid()
      ensures Model() == ProgramPlayer.ClearItems(Geo(), old(Model()))
    {
      program := [];
      programCounter := 0;
      programState := None;
      DisplayClear(0, programPos, programWidth, programHeight);
    }

    /** findItemByName: the first index holding the name, or -1. */
    method FindItemByName(name: string) returns (index: int)
      ensures index == FindItem(program, name)
    {
      var i := 0;
      while i < |program|
        invariant 0 <= i <= |program|
        invariant forall k :: 0 <= k < i ==> program[k].name != name
      {
        if program[i].name == name {
          return i;
        }
        i := i + 1;
      }
      return -1;
    }

    /** setDefaults with the digit display's single font. */
    method SetDefaults(mode: Mode, duration: int, repeat: int, speed: int, font: int, color: int)
      requires Valid()
      requires 0 <= duration && -32768 <= repeat <= 32767 && 0 <= speed <= 255 && 0 <= font <= 255
      modifies this
      ensures Valid()
      ensures Model() == ProgramPlayer.SetDefaults(old(Model()), mode, duration, repeat, speed, font, color, DigitFontCount)
    {
      defaultItem := defaultItem.(mode := mode, duration := duration, repeat := repeat,
                                  speed := if speed > 16 then 16 else speed,
                                  font := if font < DigitFontCount then font else 0, color := color);
    }

    /** setPlayer: places the player area on the display. */
    method SetPlayer(posY: int, height: int)
      requires Valid() && -32768 <= posY <= 32767 && 0 <= height <= 255
      modifies this, display, display.bitmap
      ensures Valid()
      ensures Model() == ProgramPlayer.SetPlayer(Geo(), old(Model()), posY, height)
    {
      var w, h := display.width, display.height;
      if posY < 0 || height == 0 {
        DisplayClear(0, programPos, w, programHeight);
      }
      var ht := height;
      var ps := posY;
      if ht > h {
        ht := h;
      }
      if ps > h - ht {
        ps := h - ht;
      }
      programPos := ps;
      programWidth := w;
      programHeight := ht;
      if ht > 0 {
        DisplayClear(0, programPos, w, programHeight);
      }
    }
  }
}
