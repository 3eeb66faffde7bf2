/** The program player of the display base class as a state machine over
    values: the playlist, the default item, the program counter and state,
    the player area, the slide-in counters and the digit frame buffer the
    player draws on. Each tick and each playlist edit is a function from one
    player value to the next; the display hooks are those of the MAX72xx
    digit backend (displayFormat is printFormatted and a flush, displayClear
    is fillRect with the blank pattern and a flush). */
module ProgramPlayer {
  import opened Glyphs
  import opened DigitFormat
  import opened Text
  import opened Ints
  import opened Program

  // ---------------------------------------------------------------------------
  // The screen

  /** The frame buffer, the text cursor, the wrap flag and the blocks sent
      to the controller chain. */
  datatype Screen = Screen(cells: seq<bv8>, cursorX: int, cursorY: int, wrap: bool, sent: seq<seq<bv8>>)

  /** The digit display's layout and its number of modules. */
  datatype Geometry = Geometry(lay: Layout, modules: int)
  {
    predicate Valid() {
      lay.Valid() && lay.length <= 8 && 1 <= modules && modules * lay.length == lay.width * lay.height
    }
  }

  predicate Fits(g: Geometry, s: Screen) {
    g.Valid() && |s.cells| == g.lay.width * g.lay.height
  }

  /** displayFormat: printFormatted into the frame buffer, then the flush. */
  function Format(g: Geometry, s: Screen, x: int, y: int, w: int, align: int, content: string): (r: Screen)
    requires Fits(g, s)
    ensures Fits(g, r)
  {
    var cells := FormatCells(s.cells, g.lay, x, y, w, align, content, MapChar);
    Screen(cells, FormatCursorX(g.lay, x, y, w, align, content, MapChar), FormatSlot(g.lay, x, y, w).y,
           s.wrap, s.sent + FlushBlocks(cells, g.lay.length, g.modules))
  }

  /** displayClear: fillRect with the blank pattern (the background colour is
      ignored), then the flush; the cursor stays. */
  function Clear(g: Geometry, s: Screen, x: int, y: int, w: int, h: int): (r: Screen)
    requires Fits(g, s)
    ensures Fits(g, r)
  {
    var cells := FillRectCells(s.cells, g.lay.width, g.lay.height, x, y, w, h, 0);
    s.(cells := cells, sent := s.sent + FlushBlocks(cells, g.lay.length, g.modules))
  }

  // ---------------------------------------------------------------------------
  // The player

  /** The slide-in counters: the delay counter, the index of the sliding
      character, the position it slides to, its current position, and the
      width and height of the character. */
  datatype Slide = Slide(delayCtr: int, charPos: int, lastPos: int, slidePos: int, charX: int, charY: int)

  /** The player: playlist, defaults, program counter and state, the player
      area (first row, width and height), the slide-in counters and the
      screen. */
  datatype Player = Player(program: seq<ProgramItem>, defaults: ProgramItem, counter: int, state: ProgramState,
                           pos: int, width: int, height: int, slide: Slide, screen: Screen)

  /** A program counter that indexes the playlist, or is 0. */
  predicate CounterOk(counter: int, n: int) {
    0 <= counter && (counter < n || counter == 0)
  }

  /** What every tick and edit keeps: the screen fits the display, the
      counter is valid, an empty playlist is idle, the slide counters are
      non-negative, and a sliding character never sits at column 0. */
  predicate Sound(p: Player, g: Geometry) {
    && Fits(g, p.screen)
    && CounterOk(p.counter, |p.program|)
    && (|p.program| == 0 ==> p.state == None)
    && 0 <= p.slide.charPos && 0 <= p.slide.lastPos && 0 <= p.slide.charX
    && (p.state == FadeIn ==> 1 <= p.slide.slidePos)
  }

  /** Sound, and every item and the defaults within their value ranges. */
  predicate Valid(p: Player, g: Geometry, fontCount: int) {
    && Sound(p, g)
    && InRange(p.defaults, fontCount)
    && forall i :: 0 <= i < |p.program| ==> InRange(p.program[i], fontCount)
  }

  function Current(p: Player): ProgramItem
    requires 0 <= p.counter < |p.program|
  {
    p.program[p.counter]
  }

  /** The playlist without item i. */
  function Erase<T>(s: seq<T>, i: int): (r: seq<T>)
    requires 0 <= i < |s|
    ensures |r| == |s| - 1
    ensures forall k :: 0 <= k < |r| ==> r[k] == if k < i then s[k] else s[k + 1]
  {
    s[..i] + s[i + 1..]
  }

  /** The state programInit leaves: the initial defaults, an empty playlist,
      a disabled player area, state None. */
  function Initial(s: Screen): Player
  {
    Player([], InitialDefaults, 0, None, -1, 0, 0, Slide(0, 0, 0, 0, 0, 0), s)
  }

  // ---------------------------------------------------------------------------
  // The next-character scanner of the digit backend

  /** The number of spaces among s[i..j]. */
  function Spaces(s: string, i: nat, j: nat): nat
    decreases j - i
  {
    if i >= j || i >= |s| then 0 else (if s[i] == ' ' then 1 else 0) + Spaces(s, i + 1, j)
  }

  datatype Scanned = Scanned(found: bool, charPos: int, lastPos: int, charX: int, charY: int)

  /** initNextCharDimensions: from charPos, skip the characters that take no
      cell and the spaces, each space moving the target position on by its
      width; stop at the first visible character. */
  function Scan(content: string, charPos: nat, lastPos: int, charX: int, charY: int): (r: Scanned)
    decreases |content| - charPos
    ensures r.charPos >= charPos
    ensures r.found ==>
              && r.charPos < |content| && content[r.charPos] != ' '
              && CharLen(content[r.charPos], false) == 1 && r.charX == 1 && r.charY == 1
    ensures !r.found ==> r.charPos == if charPos < |content| then |content| else charPos
    ensures forall k :: charPos <= k < r.charPos ==> content[k] == ' ' || CharLen(content[k], false) == 0
    ensures r.lastPos == lastPos + Spaces(content, charPos, r.charPos)
    ensures 0 <= charX ==> 0 <= r.charX
  {
    if charPos >= |content| then Scanned(false, charPos, lastPos, charX, charY)
    else
      var c := content[charPos];
      var x := CharLen(c, false);
      if x != 0 && c != ' ' then Scanned(true, charPos, lastPos, x, 1)
      else Scan(content, charPos + 1, if c == ' ' then lastPos + x else lastPos, x, 1)
  }

  /** The scanner applied to the slide counters. */
  function ScanSlide(content: string, s: Slide, from: nat, lastPos: int): Slide
  {
    var sc := Scan(content, from, lastPos, s.charX, s.charY);
    s.(charPos := sc.charPos, lastPos := sc.lastPos, charX := sc.charX, charY := sc.charY)
  }

  // ---------------------------------------------------------------------------
  // One tick

  /** A player whose current item exists. */
  predicate Ready(p: Player, g: Geometry) {
    Sound(p, g) && p.counter < |p.program|
  }

  /** startProgramItem: static modes are drawn once with the mode's
      alignment and wait; slide-in resets the counters and clears the area
      when there is a character to slide, otherwise draws the text left
      aligned and waits. */
  function Start(g: Geometry, p: Player): (r: Player)
    requires Ready(p, g) && p.state == None
    ensures Ready(r, g)
    ensures r.program == p.program && r.counter == p.counter && r.defaults == p.defaults
    ensures r.pos == p.pos && r.width == p.width && r.height == p.height
    ensures Current(p).mode != SlideIn ==>
              && r.state == Wait && r.slide == p.slide
              && r.screen == Format(g, p.screen, 0, p.pos, p.width, ModeIndex(Current(p).mode), Current(p).content)
    ensures Current(p).mode == SlideIn ==>
              && (r.state == FadeIn || r.state == Wait)
              && r.slide.delayCtr == Byte(17 - Current(p).speed) && r.slide.slidePos == g.lay.width
              && r.slide.lastPos == Spaces(Current(p).content, 0, r.slide.charPos)
              && (r.state == FadeIn <==> exists k :: 0 <= k < |Current(p).content| && Current(p).content[k] != ' '
                                                    && CharLen(Current(p).content[k], false) != 0)
              && (r.state == FadeIn ==> r.screen == Clear(g, p.screen, 0, p.pos, p.width, p.height))
              && (r.state == Wait ==> r.screen == Format(g, p.screen, 0, p.pos, p.width, AlignLeft, Current(p).content))
  {
    var item := Current(p);
    match item.mode
    case Left => p.(screen := Format(g, p.screen, 0, p.pos, p.width, AlignLeft, item.content), state := Wait)
    case Center => p.(screen := Format(g, p.screen, 0, p.pos, p.width, AlignCenter, item.content), state := Wait)
    case Right => p.(screen := Format(g, p.screen, 0, p.pos, p.width, AlignRight, item.content), state := Wait)
    case SlideIn =>
      var sc := Scan(item.content, 0, 0, p.slide.charX, p.slide.charY);
      var slide := Slide(Byte(17 - item.speed), sc.charPos, sc.lastPos, g.lay.width, sc.charX, sc.charY);
      if sc.found then
        p.(slide := slide, screen := Clear(g, p.screen, 0, p.pos, p.width, p.height), state := FadeIn)
      else
        p.(slide := slide, screen := Format(g, p.screen, 0, p.pos, p.width, AlignLeft, item.content), state := Wait)
  }

  /** fadeInProgramItem: a slide-in item acts on every tick on which the
      decremented delay counter reaches 0; it then reloads the counter, moves
      the character one cell to the left and draws it there. When it has
      arrived, the target moves on by the character's width and the next
      character starts at the right edge, unless the area is full or there
      is no next character, which ends the fade-in. Other modes end the
      fade-in at once. */
  function FadeInStep(g: Geometry, p: Player): (r: Player)
    requires Ready(p, g) && p.state == FadeIn
    ensures Ready(r, g)
    ensures r.program == p.program && r.counter == p.counter && r.defaults == p.defaults
    ensures r.pos == p.pos && r.width == p.width && r.height == p.height
    ensures r.state == FadeIn || r.state == Wait
    ensures Current(p).mode != SlideIn ==> r == p.(state := Wait)
    ensures Current(p).mode == SlideIn && Byte(p.slide.delayCtr - 1) != 0 ==>
              r == p.(slide := p.slide.(delayCtr := Byte(p.slide.delayCtr - 1)))
    ensures Current(p).mode == SlideIn && Byte(p.slide.delayCtr - 1) == 0 ==>
              r == Advance(g, p.(slide := p.slide.(delayCtr := 0)))
  {
    var item := Current(p);
    if item.mode != SlideIn then p.(state := Wait)
    else
      var d := Byte(p.slide.delayCtr - 1);
      if d != 0 then p.(slide := p.slide.(delayCtr := d))
      else Advance(g, p.(slide := p.slide.(delayCtr := d)))
  }

  /** The fade-in tick whose delay has run out: the delay is reloaded, the
      character is drawn one column further left, and when it reaches its
      place the next visible character starts at the right edge, unless the
      area is full or there is none, which ends the fade-in. */
  function Advance(g: Geometry, p: Player): (r: Player)
    requires Ready(p, g) && p.state == FadeIn && Current(p).mode == SlideIn
    ensures Ready(r, g)
    ensures r.program == p.program && r.counter == p.counter && r.defaults == p.defaults
    ensures r.pos == p.pos && r.width == p.width && r.height == p.height
    ensures r.state == FadeIn || r.state == Wait
    ensures var sp := p.slide.slidePos - 1;
            && r.slide.delayCtr == Byte(17 - Current(p).speed)
            && r.screen == Format(g, p.screen, sp, p.pos, p.width - sp, AlignLeft,
                                  Substring(Current(p).content, p.slide.charPos, p.slide.charPos + 1))
            && (sp > p.slide.lastPos ==>
                  r.state == FadeIn && r.slide == p.slide.(delayCtr := r.slide.delayCtr, slidePos := sp))
            && (sp <= p.slide.lastPos ==> r.slide.slidePos == g.lay.width)
            && (sp <= p.slide.lastPos && p.slide.lastPos + p.slide.charX >= g.lay.width ==>
                  r.state == Wait && r.slide.lastPos == p.slide.lastPos + p.slide.charX
                  && r.slide.charPos == p.slide.charPos)
            && (sp <= p.slide.lastPos && p.slide.lastPos + p.slide.charX < g.lay.width ==>
                  r.slide.charPos > p.slide.charPos
                  && (r.state == FadeIn <==> r.slide.charPos < |Current(p).content|))
  {
    var item := Current(p);
    var sp := p.slide.slidePos - 1;
    var screen := Format(g, p.screen, sp, p.pos, p.width - sp, AlignLeft,
                         Substring(item.content, p.slide.charPos, p.slide.charPos + 1));
    var s1 := p.slide.(delayCtr := Byte(17 - item.speed));
    if sp > s1.lastPos then p.(slide := s1.(slidePos := sp), screen := screen)
    else Arrive(g, p.(slide := s1, screen := screen))
  }

  /** The sliding character has reached its place: it is added to the text
      shown, and the next visible character starts at the right edge, unless
      the area is full or there is none, which ends the fade-in. */
  function Arrive(g: Geometry, p: Player): (r: Player)
    requires Ready(p, g) && p.state == FadeIn && Current(p).mode == SlideIn
    ensures Ready(r, g)
    ensures r.program == p.program && r.counter == p.counter && r.defaults == p.defaults
    ensures r.pos == p.pos && r.width == p.width && r.height == p.height && r.screen == p.screen
    ensures r.slide.delayCtr == p.slide.delayCtr && r.slide.slidePos == g.lay.width
    ensures p.slide.lastPos + p.slide.charX >= g.lay.width ==>
              r.state == Wait && r.slide == p.slide.(lastPos := p.slide.lastPos + p.slide.charX, slidePos := g.lay.width)
    ensures p.slide.lastPos + p.slide.charX < g.lay.width ==>
              var sc := Scan(Current(p).content, p.slide.charPos + 1, p.slide.lastPos + p.slide.charX,
                             p.slide.charX, p.slide.charY);
              && r.slide.charPos > p.slide.charPos
              && (r.state == FadeIn <==> sc.found)
              && (r.state == FadeIn <==> r.slide.charPos < |Current(p).content|)
              && r.slide.lastPos == sc.lastPos
  {
    var item := Current(p);
    var lastPos := p.slide.lastPos + p.slide.charX;
    if lastPos >= g.lay.width then
      p.(slide := p.slide.(lastPos := lastPos, slidePos := g.lay.width), state := Wait)
    else
      var sc := Scan(item.content, p.slide.charPos + 1, lastPos, p.slide.charX, p.slide.charY);
      p.(slide := Slide(p.slide.delayCtr, sc.charPos, sc.lastPos, g.lay.width, sc.charX, sc.charY),
         state := if sc.found then FadeIn else Wait)
  }

  /** waitProgramItem: the item's timer expiring moves on to the fade-out. */
  function WaitStep(p: Player, expired: bool): (r: Player)
    requires p.state == Wait
    ensures r.state == (if expired then FadeOut else Wait)
    ensures r == p.(state := r.state)
  {
    if expired then p.(state := FadeOut) else p
  }

  /** fadeOutProgramItem followed by fadeOutEnd: the item is finished. */
  function FadeOutStep(p: Player): (r: Player)
    requires p.state == FadeOut
    ensures r.state == Finished && r == p.(state := Finished)
  {
    p.(state := Finished)
  }

  /** endProgramItem: the state returns to None. An item with a repeat count
      has it decremented in place (as an int16) and is removed when it
      reaches 0; otherwise the counter moves to the next item. The counter
      wraps to 0 past the end. */
  function EndStep(g: Geometry, p: Player): (r: Player)
    requires Ready(p, g)
    ensures Sound(r, g)
    ensures r.state == None
    ensures r.defaults == p.defaults && r.slide == p.slide && r.screen == p.screen
    ensures r.pos == p.pos && r.width == p.width && r.height == p.height
    ensures Current(p).repeat == 0 ==> r.program == p.program
    ensures Current(p).repeat == 1 ==> r.program == Erase(p.program, p.counter)
    ensures 1 < Current(p).repeat <= 32767 ==>
              r.program == p.program[p.counter := Current(p).(repeat := Current(p).repeat - 1)]
    ensures -32768 < Current(p).repeat < 0 ==>
              r.program == p.program[p.counter := Current(p).(repeat := Current(p).repeat - 1)]
    ensures Current(p).repeat == -32768 ==> r.program == p.program[p.counter := Current(p).(repeat := 32767)]
    ensures -32768 <= Current(p).repeat <= 32767 ==> (|r.program| < |p.program| <==> Current(p).repeat == 1)
    ensures |r.program| == |p.program| ==> r.counter == if p.counter + 1 < |p.program| then p.counter + 1 else 0
    ensures |r.program| < |p.program| ==> r.counter == if p.counter < |r.program| then p.counter else 0
  {
    var item := Current(p);
    var repeat := Int16(item.repeat - 1);
    var removed := item.repeat != 0 && repeat == 0;
    var program :=
      if removed then Erase(p.program, p.counter)
      else if item.repeat != 0 then p.program[p.counter := item.(repeat := repeat)]
      else p.program;
    var counter := if removed then p.counter else p.counter + 1;
    p.(state := None, program := program, counter := if counter >= |program| then 0 else counter)
  }

  /** The phases of one tick that draw the current item: start it when it
      has not started, then advance its fade-in. */
  function Show(g: Geometry, p: Player): (r: Player)
    requires Ready(p, g)
    ensures Ready(r, g)
    ensures r.program == p.program && r.counter == p.counter && r.defaults == p.defaults
    ensures r.pos == p.pos && r.width == p.width && r.height == p.height
    ensures r.state != None
    ensures p.state != None && p.state != FadeIn ==> r == p
  {
    var p1 := if p.state == None then Start(g, p) else p;
    if p1.state == FadeIn then FadeInStep(g, p1) else p1
  }

  /** The phases of one tick that retire the current item: wait for the
      timer, fade out, end. */
  function Retire(g: Geometry, p: Player, expired: bool): (r: Player)
    requires Ready(p, g)
    ensures Sound(r, g)
    ensures r.defaults == p.defaults && r.pos == p.pos && r.width == p.width && r.height == p.height
    ensures r.screen == p.screen
    ensures |r.program| == |p.program| ==> forall i :: 0 <= i < |p.program| && i != p.counter ==> r.program[i] == p.program[i]
    ensures |r.program| != |p.program| ==> r.program == Erase(p.program, p.counter)
  {
    var p3 := if p.state == Wait then WaitStep(p, expired) else p;
    var p4 := if p3.state == FadeOut then FadeOutStep(p3) else p3;
    if p4.state == Finished then EndStep(g, p4) else p4
  }

  /** programLoop: nothing happens while the playlist is empty or the player
      area is disabled. Otherwise the phases run in sequence within the tick,
      each one on the state the previous left: start, fade-in, wait (with the
      timer's verdict `expired`), fade-out, end. An emptied playlist clears
      the area; the cursor and wrap flag are restored at the end. */
  function Loop(g: Geometry, p: Player, expired: bool): (r: Player)
    requires Sound(p, g)
    ensures Sound(r, g)
    ensures |p.program| == 0 || p.height == 0 || p.pos < 0 ==> r == p
    ensures r.screen.cursorX == p.screen.cursorX && r.screen.cursorY == p.screen.cursorY
    ensures r.screen.wrap == p.screen.wrap
    ensures r.defaults == p.defaults && r.pos == p.pos && r.width == p.width && r.height == p.height
    ensures |r.program| == |p.program| ==> forall i :: 0 <= i < |p.program| && i != p.counter ==> r.program[i] == p.program[i]
    ensures |r.program| != |p.program| ==> 0 <= p.counter < |p.program| && r.program == Erase(p.program, p.counter)
  {
    if |p.program| == 0 || p.height == 0 || p.pos < 0 then p
    else
      var p5 := Retire(g, Show(g, p), expired);
      var p6 := if |p5.program| == 0 then p5.(screen := Clear(g, p5.screen, 0, p5.pos, p5.width, p5.height)) else p5;
      p6.(screen := p6.screen.(cursorX := p.screen.cursorX, cursorY := p.screen.cursorY, wrap := p.screen.wrap))
  }

  /** changedProgramItem for the current item: static modes are redrawn. A
      slide-in item caught in the middle of its fade-in (before its last
      character, compared in unsigned arithmetic so that an empty text always
      counts) has the part already revealed redrawn, and the target and the
      next character are taken from there: the reveal resumes. Otherwise the
      whole text is drawn and the item waits. */
  function Changed(g: Geometry, p: Player): (r: Player)
    requires Ready(p, g)
    ensures Ready(r, g)
    ensures r.program == p.program && r.counter == p.counter && r.defaults == p.defaults
    ensures r.pos == p.pos && r.width == p.width && r.height == p.height
    ensures Current(p).mode != SlideIn ==>
              r == p.(screen := Format(g, p.screen, 0, p.pos, p.width, ModeIndex(Current(p).mode), Current(p).content))
    ensures Current(p).mode == SlideIn && Resumes(p) ==>
              var shown := Format(g, p.screen, 0, p.pos, p.width, AlignLeft,
                                  Substring(Current(p).content, 0, p.slide.charPos));
              && r.state == FadeIn && r.screen == shown
              && r.slide.charPos >= p.slide.charPos
              && r.slide.lastPos == shown.cursorX + Spaces(Current(p).content, p.slide.charPos, r.slide.charPos)
              && r.slide.delayCtr == p.slide.delayCtr && r.slide.slidePos == p.slide.slidePos
    ensures Current(p).mode == SlideIn && !Resumes(p) ==>
              r.state == Wait && r.slide == p.slide
              && r.screen == Format(g, p.screen, 0, p.pos, p.width, AlignLeft, Current(p).content)
  {
    var item := Current(p);
    match item.mode
    case Left => p.(screen := Format(g, p.screen, 0, p.pos, p.width, AlignLeft, item.content))
    case Center => p.(screen := Format(g, p.screen, 0, p.pos, p.width, AlignCenter, item.content))
    case Right => p.(screen := Format(g, p.screen, 0, p.pos, p.width, AlignRight, item.content))
    case SlideIn =>
      if Resumes(p) then
        var screen := Format(g, p.screen, 0, p.pos, p.width, AlignLeft, Substring(item.content, 0, p.slide.charPos));
        p.(screen := screen, slide := ScanSlide(item.content, p.slide, p.slide.charPos, screen.cursorX))
      else
        p.(screen := Format(g, p.screen, 0, p.pos, p.width, AlignLeft, item.content), state := Wait)
  }

  /** The condition of changedProgramItem under which a slide-in resumes. */
  predicate Resumes(p: Player)
    requires 0 <= p.counter < |p.program|
  {
    p.state == FadeIn && (|Current(p).content| == 0 || p.slide.charPos < |Current(p).content| - 1)
  }

  // ---------------------------------------------------------------------------
  // Playlist edits

  predicate ValidIndex(p: Player, i: int) {
    0 <= i < |p.program|
  }

  /** addItem: the defaults, named, with the fields of `args` parsed into
      them, appended to the playlist. */
  function AddItem(p: Player, name: string, args: string, fontCount: int): (r: Player)
    ensures |r.program| == |p.program| + 1 && r.program[..|p.program|] == p.program
    ensures r.program[|p.program|].name == name
    ensures r.program[|p.program|].color == p.defaults.color && r.program[|p.program|].bg == p.defaults.bg
    ensures r == p.(program := r.program)
  {
    p.(program := p.program + [ApplyFields(p.defaults.(name := name), args, fontCount)])
  }

  /** replaceItem: a valid item gets the fields of `args` parsed into it;
      the current item is redrawn. */
  function ReplaceItem(g: Geometry, p: Player, i: int, args: string, fontCount: int): (r: Player)
    requires Sound(p, g)
    ensures Sound(r, g)
    ensures !ValidIndex(p, i) ==> r == p
    ensures ValidIndex(p, i) ==>
              && |r.program| == |p.program|
              && r.program[i] == ApplyFields(p.program[i], args, fontCount)
              && (forall k :: 0 <= k < |p.program| && k != i ==> r.program[k] == p.program[k])
              && r.counter == p.counter && r.defaults == p.defaults
              && (p.counter != i ==> r == p.(program := r.program))
  {
    if !ValidIndex(p, i) then p
    else
      var q := p.(program := p.program[i := ApplyFields(p.program[i], args, fontCount)]);
      if p.counter == i then Changed(g, q) else q
  }

  /** addContent: the defaults, named and with `args` as content, appended. */
  function AddContent(p: Player, name: string, args: string): (r: Player)
    ensures |r.program| == |p.program| + 1 && r.program[..|p.program|] == p.program
    ensures r.program[|p.program|].name == name && r.program[|p.program|].content == args
    ensures r.program[|p.program|].(name := p.defaults.name, content := p.defaults.content) == p.defaults
    ensures r == p.(program := r.program)
  {
    p.(program := p.program + [p.defaults.(name := name, content := args)])
  }

  /** replaceContent: a valid item gets `args` as its content; the current
      item is redrawn. */
  function ReplaceContent(g: Geometry, p: Player, i: int, args: string): (r: Player)
    requires Sound(p, g)
    ensures Sound(r, g)
    ensures !ValidIndex(p, i) ==> r == p
    ensures ValidIndex(p, i) ==>
              && r.program == p.program[i := p.program[i].(content := args)]
              && r.counter == p.counter && r.defaults == p.defaults
              && (p.counter != i ==> r == p.(program := r.program))
  {
    if !ValidIndex(p, i) then p
    else
      var q := p.(program := p.program[i := p.program[i].(content := args)]);
      if p.counter == i then Changed(g, q) else q
  }

  /** jumpItem: a valid item becomes current and starts on the next tick. */
  function JumpItem(p: Player, i: int): (r: Player)
    ensures r.program == p.program && r == p.(counter := r.counter, state := r.state)
    ensures ValidIndex(p, i) ==> r.counter == i && ValidIndex(r, r.counter) && r.state == None
    ensures !ValidIndex(p, i) ==> r == p
  {
    if ValidIndex(p, i) then p.(counter := i, state := None) else p
  }

  /** clearItem: a valid item is removed. A later current item keeps being
      current under its new index; removing the current item restarts the
      item that moves into its place (or the first). An emptied playlist
      clears the area. */
  function ClearItem(g: Geometry, p: Player, i: int): (r: Player)
    requires Sound(p, g)
    ensures Sound(r, g)
    ensures !ValidIndex(p, i) ==> r == p
    ensures ValidIndex(p, i) ==>
              && r.program == Erase(p.program, i)
              && r.defaults == p.defaults && r.slide == p.slide
              && (p.counter > i ==> r.counter == p.counter - 1 && r.state == p.state
                                    && r.program[r.counter] == p.program[p.counter])
              && (p.counter == i ==> r.state == None && r.counter == if i < |r.program| then i else 0)
              && (p.counter < i ==> r.counter == p.counter && r.state == p.state)
              && (|r.program| > 0 ==> r.screen == p.screen)
              && (|r.program| == 0 ==> r.screen == Clear(g, p.screen, 0, p.pos, p.width, p.height))
  {
    if !ValidIndex(p, i) then p
    else
      var program := Erase(p.program, i);
      var q :=
        if p.counter > i then p.(program := program, counter := p.counter - 1)
        else if p.counter == i then p.(program := program, state := None,
                                       counter := if p.counter >= |program| then 0 else p.counter)
        else p.(program := program);
      if |program| == 0 then q.(screen := Clear(g, q.screen, 0, q.pos, q.width, q.height)) else q
  }

  /** clearItems: the playlist is emptied, the player idles, the area is
      cleared. */
  function ClearItems(g: Geometry, p: Player): (r: Player)
    requires Sound(p, g)
    ensures Sound(r, g)
    ensures r.program == [] && r.counter == 0 && r.state == None
    ensures r.screen == Clear(g, p.screen, 0, p.pos, p.width, p.height)
    ensures r == p.(program := [], counter := 0, state := None, screen := r.screen)
  {
    p.(program := [], counter := 0, state := None, screen := Clear(g, p.screen, 0, p.pos, p.width, p.height))
  }

  /** findItemByName: the index of the first item with that name, or -1. */
  function FindItem(program: seq<ProgramItem>, name: string): (i: int)
    ensures -1 <= i < |program|
    ensures i >= 0 ==> program[i].name == name && forall k :: 0 <= k < i ==> program[k].name != name
    ensures i == -1 <==> forall k :: 0 <= k < |program| ==> program[k].name != name
  {
    if |program| == 0 then -1
    else
      var j := FindItem(program[..|program| - 1], name);
      if j >= 0 then j
      else if program[|program| - 1].name == name then |program| - 1
      else -1
  }

  /** setDefaults: speed is cut to 16, a font that is not registered becomes
      font 0; name, content and background stay. */
  function SetDefaults(p: Player, mode: Mode, duration: int, repeat: int, speed: int, font: int, color: int,
                       fontCount: int): (r: Player)
    requires 0 <= speed <= 255 && 0 <= font <= 255
    ensures r.program == p.program && r.counter == p.counter && r.state == p.state && r.screen == p.screen
    ensures r.defaults.mode == mode && r.defaults.duration == duration && r.defaults.repeat == repeat
    ensures r.defaults.color == color
    ensures 0 <= r.defaults.speed <= 16 && (speed <= 16 ==> r.defaults.speed == speed)
    ensures fontCount >= 1 ==> 0 <= r.defaults.font < fontCount
    ensures font < fontCount ==> r.defaults.font == font
    ensures r.defaults.name == p.defaults.name && r.defaults.content == p.defaults.content
    ensures r.defaults.bg == p.defaults.bg
  {
    var d := p.defaults.(mode := mode, duration := duration, repeat := repeat,
                         speed := if speed > 16 then 16 else speed,
                         font := if font < fontCount then font else 0, color := color);
    p.(defaults := d)
  }

  /** setPlayer: disabling (negative row or zero height) first clears the
      old area; the height is cut to the display, the row moved up so that
      the area ends on the display; enabling clears the new area. */
  function SetPlayer(g: Geometry, p: Player, posY: int, height: int): (r: Player)
    requires Sound(p, g) && -32768 <= posY <= 32767 && 0 <= height <= 255
    ensures Sound(r, g)
    ensures r.height == Min(height, g.lay.height) && r.width == g.lay.width
    ensures r.pos == Min(posY, g.lay.height - r.height)
    ensures r.pos >= 0 ==> r.pos + r.height <= g.lay.height
    ensures r.program == p.program && r.counter == p.counter && r.state == p.state && r.slide == p.slide
    ensures r.defaults == p.defaults
    ensures var s := if posY < 0 || height == 0 then Clear(g, p.screen, 0, p.pos, g.lay.width, p.height) else p.screen;
            r.screen == if r.height > 0 then Clear(g, s, 0, r.pos, g.lay.width, r.height) else s
  {
    var w, h := g.lay.width, g.lay.height;
    var s := if posY < 0 || height == 0 then Clear(g, p.screen, 0, p.pos, w, p.height) else p.screen;
    var ht := if height > h then h else height;
    var ps := if posY > h - ht then h - ht else posY;
    p.(pos := ps, width := w, height := ht, screen := if ht > 0 then Clear(g, s, 0, ps, w, ht) else s)
  }

  // ---------------------------------------------------------------------------
  // Properties

  /** Every edit and every tick keeps the items within their value ranges. */
  lemma EndStepInRange(g: Geometry, p: Player, fontCount: int)
    requires Ready(p, g) && Valid(p, g, fontCount)
    ensures Valid(EndStep(g, p), g, fontCount)
  {
    var r := EndStep(g, p);
    var item := Current(p);
    if item.repeat != 0 && Int16(item.repeat - 1) != 0 {
      assert InRange(item.(repeat := Int16(item.repeat - 1)), fontCount);
      assert forall k :: 0 <= k < |r.program| ==> r.program[k] == p.program[k] || k == p.counter;
    }
  }

  lemma LoopValid(g: Geometry, p: Player, expired: bool, fontCount: int)
    requires Valid(p, g, fontCount)
    ensures Valid(Loop(g, p, expired), g, fontCount)
  {
    if |p.program| > 0 && p.height != 0 && p.pos >= 0 {
      var p2 := Show(g, p);
      var p3 := if p2.state == Wait then WaitStep(p2, expired) else p2;
      var p4 := if p3.state == FadeOut then FadeOutStep(p3) else p3;
      assert p4.program == p.program && p4.counter == p.counter && p4.defaults == p.defaults;
      assert Valid(p4, g, fontCount);
      if p4.state == Finished {
        EndStepInRange(g, p4, fontCount);
      }
    }
  }

  lemma AddItemValid(g: Geometry, p: Player, name: string, args: string, fontCount: int)
    requires Valid(p, g, fontCount)
    ensures Valid(AddItem(p, name, args, fontCount), g, fontCount)
  {
    ApplyFieldsInRange(p.defaults.(name := name), args, fontCount);
  }

  lemma ReplaceItemValid(g: Geometry, p: Player, i: int, args: string, fontCount: int)
    requires Valid(p, g, fontCount)
    ensures Valid(ReplaceItem(g, p, i, args, fontCount), g, fontCount)
  {
    if ValidIndex(p, i) {
      ApplyFieldsInRange(p.program[i], args, fontCount);
    }
  }

  lemma ClearItemValid(g: Geometry, p: Player, i: int, fontCount: int)
    requires Valid(p, g, fontCount)
    ensures Valid(ClearItem(g, p, i), g, fontCount)
  {
  }

  /** A text item with a single showing is drawn, waits out its timer and is
      removed within one tick once the timer has expired. */
  lemma SingleShowingRemoved(g: Geometry, p: Player)
    requires Ready(p, g) && p.state == None && p.height > 0 && p.pos >= 0
    requires Current(p).mode != SlideIn && Current(p).repeat == 1
    ensures Loop(g, p, true).program == Erase(p.program, p.counter)
    ensures Loop(g, p, true).state == None
  {
    var p2 := Show(g, p);
    assert p2.state == Wait;
    var p4 := FadeOutStep(WaitStep(p2, true));
    assert Current(p4) == Current(p);
  }

  /** An item that repeats forever is never removed, whatever the timer says. */
  lemma ForeverItemStays(g: Geometry, p: Player, expired: bool)
    requires Ready(p, g) && Current(p).repeat == 0
    ensures Loop(g, p, expired).program == p.program
  {
  }

  /** Every acting tick of a slide-in makes progress: either a later
      character becomes the sliding one, or the same character moves one
      cell to the left and is still to the right of its target. */
  lemma SlideProgress(g: Geometry, p: Player)
    requires Ready(p, g) && p.state == FadeIn && Current(p).mode == SlideIn
    requires Byte(p.slide.delayCtr - 1) == 0
    ensures var r := FadeInStep(g, p);
            r.state == FadeIn ==>
              r.slide.charPos > p.slide.charPos
              || (r.slide.charPos == p.slide.charPos && r.slide.slidePos == p.slide.slidePos - 1
                  && r.slide.slidePos > r.slide.lastPos)
  {
  }

  /** A waiting tick of a slide-in only counts the delay down. */
  lemma SlideDelay(g: Geometry, p: Player)
    requires Ready(p, g) && p.state == FadeIn && Current(p).mode == SlideIn
    requires 2 <= p.slide.delayCtr <= 255
    ensures FadeInStep(g, p) == p.(slide := p.slide.(delayCtr := p.slide.delayCtr - 1))
  {
  }

  /** An added item is found under its name when no earlier item has it. */
  lemma AddedItemFound(p: Player, name: string, args: string, fontCount: int)
    requires FindItem(p.program, name) == -1
    ensures FindItem(AddItem(p, name, args, fontCount).program, name) == |p.program|
  {
    var r := AddItem(p, name, args, fontCount);
    assert r.program[..|r.program| - 1] == p.program;
  }
}
