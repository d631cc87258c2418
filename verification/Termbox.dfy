/** A terminal as seen by termbox: what the tokens sent to it do. */
module Terminals {

  datatype Flag = Bold | Blink | Underline | Italic | Dim | Reverse

  /** How characters are drawn: a set of flags and two colours, None being the default. */
  datatype Look = Look(flags: set<Flag>, fg: Color, bg: Color)

  /** An entry of the palette: black, red, green, yellow, blue, magenta, cyan, white. */
  datatype Color = Default | Entry(index: nat, bright: bool)

  const PLAIN := Look({}, Default, Default)

  datatype Glyph = Glyph(ch: nat, look: Look)

  datatype Token =
    | Goto(x: nat, y: nat)
    | Sgr0
    | SetFlag(flag: Flag)
    | Sgr(parameters: seq<nat>)
    | ClearScreen
    | Print(ch: nat)

  datatype Position = At(x: nat, y: nat) | Unknown

  /** `lost` records that something was printed while the cursor was not known. */
  datatype Terminal = Terminal(
    width: nat, height: nat, screen: map<(nat, nat), Glyph>, cursor: Position, look: Look, lost: bool)

  /** The graphic rendition parameters for colours; others leave the look as it is. */
  function Interpret(look: Look, n: nat): Look {
    if 30 <= n <= 37 then look.(fg := Entry(n - 30, false))
    else if 90 <= n <= 97 then look.(fg := Entry(n - 90, true))
    else if 40 <= n <= 47 then look.(bg := Entry(n - 40, false))
    else if 100 <= n <= 107 then look.(bg := Entry(n - 100, true))
    else if n == 39 then look.(fg := Default)
    else if n == 49 then look.(bg := Default)
    else look
  }

  function InterpretAll(look: Look, parameters: seq<nat>): Look
    decreases |parameters|
  {
    if parameters == [] then look else InterpretAll(Interpret(look, parameters[0]), parameters[1..])
  }

  /** Printing moves the cursor one column on; after the last column where it goes depends on
      the terminal, as it does after clearing, which leaves blanks in the current look. */
  function Feed(t: Terminal, token: Token): Terminal {
    match token
    case Goto(x, y) => t.(cursor := At(x, y))
    case Sgr0 => t.(look := PLAIN)
    case SetFlag(flag) => t.(look := t.look.(flags := t.look.flags + {flag}))
    case Sgr(parameters) => t.(look := InterpretAll(t.look, parameters))
    case ClearScreen =>
      t.(screen := map x, y | 0 <= x < t.width && 0 <= y < t.height :: (x, y) := Glyph(' ' as nat, t.look),
         cursor := Unknown)
    case Print(ch) =>
      if t.cursor == Unknown then t.(lost := true)
      else t.(screen := t.screen[(t.cursor.x, t.cursor.y) := Glyph(ch, t.look)],
              cursor := if t.cursor.x + 1 < t.width then At(t.cursor.x + 1, t.cursor.y) else Unknown)
  }

  function FeedAll(t: Terminal, tokens: seq<Token>): Terminal {
    if tokens == [] then t else Feed(FeedAll(t, tokens[..|tokens| - 1]), tokens[|tokens| - 1])
  }

  lemma {:induction false} FeedBoth(t: Terminal, a: seq<Token>, b: seq<Token>)
    ensures FeedAll(t, a + b) == FeedAll(FeedAll(t, a), b)
    decreases |b|
  {
    if b == [] {
      assert a + b == a;
    } else {
      FeedBoth(t, a, b[..|b| - 1]);
      assert (a + b)[..|a + b| - 1] == a + b[..|b| - 1];
    }
  }

  lemma FeedOne(t: Terminal, tokens: seq<Token>, token: Token)
    ensures FeedAll(t, tokens + [token]) == Feed(FeedAll(t, tokens), token)
  {
    assert (tokens + [token])[..|tokens|] == tokens;
  }
}

/** The differential screen update of libtermbox2/termbox2.h for single-width cells, 16-bit
    attributes and the normal output mode. */
module Presenting {
  import opened Terminals

  const TB_BOLD: bv16 := 0x0100
  const TB_UNDERLINE: bv16 := 0x0200
  const TB_REVERSE: bv16 := 0x0400
  const TB_ITALIC: bv16 := 0x0800
  const TB_BLINK: bv16 := 0x1000
  const TB_BRIGHT: bv16 := 0x4000
  const TB_DIM: bv16 := 0x8000

  datatype Cell = Cell(ch: nat, fg: bv16, bg: bv16)

  predicate Has(attr: bv16, bits: bv16) {
    attr & bits != 0
  }

  /** The colour code of an attribute: the number within the palette, counted from one, is added
      to one less than the first code. */
  function CodeOf(attr: bv16, normal: nat, bright: nat): nat
    requires normal > 0 && bright > 0
  {
    (if Has(attr, TB_BRIGHT) then bright else normal) + (attr & 0x0f) as nat - 1
  }

  predicate IsDefault(attr: bv16) {
    attr & 0xff == 0
  }

  /** The parameters sent: none for a default colour. */
  function Parameters(cfg: nat, cbg: nat, fgIsDefault: bool, bgIsDefault: bool): seq<nat> {
    (if fgIsDefault then [] else [cfg]) + (if bgIsDefault then [] else [cbg])
  }

  function FlagIf(wanted: bool, flag: Flag): set<Flag> {
    if wanted then {flag} else {}
  }

  function FlagSet(bold: bool, blink: bool, underline: bool, italic: bool, dim: bool, reverse: bool): set<Flag> {
    FlagIf(bold, Bold) + FlagIf(blink, Blink) + FlagIf(underline, Underline) + FlagIf(italic, Italic)
    + FlagIf(dim, Dim) + FlagIf(reverse, Reverse)
  }

  /** What a pair of attributes looks like, whatever was sent before. */
  function LookOf(fg: bv16, bg: bv16): Look {
    InterpretAll(
      Look(FlagSet(Has(fg, TB_BOLD), Has(fg, TB_BLINK), Has(fg, TB_UNDERLINE), Has(fg, TB_ITALIC), Has(fg, TB_DIM),
                   Has(fg, TB_REVERSE) || Has(bg, TB_REVERSE)), Default, Default),
      Parameters(CodeOf(fg, 30, 90), CodeOf(bg, 40, 100), IsDefault(fg), IsDefault(bg)))
  }

  /** The low bits of an attribute are one of the eight colours or none at all. */
  predicate IsStandard(attr: bv16) {
    attr & 0xff == 0 || 1 <= attr & 0x0f <= 8
  }

  /** The colour is the one the attribute names: the n-th of the palette, bright exactly with
      TB_BRIGHT, or the default. */
  predicate Names(attr: bv16, color: Color) {
    if attr & 0xff == 0 then color == Default
    else color.Entry? && color.index + 1 == (attr & 0x0f) as nat && (color.bright <==> attr & 0x4000 != 0)
  }

  /** What drawing in a pair of attributes means: each flag is on exactly with its bit, and the
      colours are those named. */
  ghost predicate DrawsIn(look: Look, fg: bv16, bg: bv16) {
    && (Bold in look.flags <==> fg & 0x0100 != 0)
    && (Underline in look.flags <==> fg & 0x0200 != 0)
    && (Reverse in look.flags <==> fg & 0x0400 != 0 || bg & 0x0400 != 0)
    && (Italic in look.flags <==> fg & 0x0800 != 0)
    && (Blink in look.flags <==> fg & 0x1000 != 0)
    && (Dim in look.flags <==> fg & 0x8000 != 0)
    && (IsStandard(fg) && IsStandard(bg) ==> Names(fg, look.fg) && Names(bg, look.bg))
  }

  lemma InterpretUpToTwo(look: Look, a: nat, b: nat)
    ensures InterpretAll(look, []) == look
    ensures InterpretAll(look, [a]) == Interpret(look, a)
    ensures InterpretAll(look, [a, b]) == Interpret(Interpret(look, a), b)
  {
    assert [a][1..] == [] && [b][1..] == [] && [a, b][1..] == [b];
    assert InterpretAll(Interpret(look, a), [b]) == Interpret(Interpret(look, a), b);
  }

  lemma CodeNames(attr: bv16, look: Look)
    requires !IsDefault(attr) && IsStandard(attr)
    ensures Names(attr, Interpret(look, CodeOf(attr, 30, 90)).fg)
    ensures Names(attr, Interpret(look, CodeOf(attr, 40, 100)).bg)
    ensures Interpret(look, CodeOf(attr, 30, 90)).bg == look.bg
    ensures Interpret(look, CodeOf(attr, 40, 100)).fg == look.fg
  {
  }

  lemma ColorsNamed(fg: bv16, bg: bv16, look: Look)
    requires IsStandard(fg) && IsStandard(bg) && look.fg == Default && look.bg == Default
    ensures var r := InterpretAll(look,
        Parameters(CodeOf(fg, 30, 90), CodeOf(bg, 40, 100), IsDefault(fg), IsDefault(bg)));
      Names(fg, r.fg) && Names(bg, r.bg)
  {
    var a, b := CodeOf(fg, 30, 90), CodeOf(bg, 40, 100);
    InterpretUpToTwo(look, a, b);
    InterpretUpToTwo(look, b, a);
    assert [a] + [b] == [a, b] && [a] + [] == [a] && [] + [b] == [b];
    if !IsDefault(fg) {
      CodeNames(fg, look);
    }
    if !IsDefault(bg) {
      CodeNames(bg, look);
      CodeNames(bg, Interpret(look, a));
    }
  }

  lemma {:induction false} FlagsStay(look: Look, parameters: seq<nat>)
    ensures InterpretAll(look, parameters).flags == look.flags
    decreases |parameters|
  {
    if parameters != [] {
      FlagsStay(Interpret(look, parameters[0]), parameters[1..]);
    }
  }

  lemma FlagSetHolds(bold: bool, blink: bool, underline: bool, italic: bool, dim: bool, reverse: bool)
    ensures var flags := FlagSet(bold, blink, underline, italic, dim, reverse);
      && (Bold in flags <==> bold) && (Blink in flags <==> blink) && (Underline in flags <==> underline)
      && (Italic in flags <==> italic) && (Dim in flags <==> dim) && (Reverse in flags <==> reverse)
  {
  }

  /** The look sent for a pair of attributes means what they say. */
  lemma LookDraws(fg: bv16, bg: bv16)
    ensures DrawsIn(LookOf(fg, bg), fg, bg)
  {
    var flags := FlagSet(Has(fg, TB_BOLD), Has(fg, TB_BLINK), Has(fg, TB_UNDERLINE), Has(fg, TB_ITALIC),
                         Has(fg, TB_DIM), Has(fg, TB_REVERSE) || Has(bg, TB_REVERSE));
    var look := Look(flags, Default, Default);
    FlagSetHolds(Has(fg, TB_BOLD), Has(fg, TB_BLINK), Has(fg, TB_UNDERLINE), Has(fg, TB_ITALIC),
                 Has(fg, TB_DIM), Has(fg, TB_REVERSE) || Has(bg, TB_REVERSE));
    FlagsStay(look, Parameters(CodeOf(fg, 30, 90), CodeOf(bg, 40, 100), IsDefault(fg), IsDefault(bg)));
    if IsStandard(fg) && IsStandard(bg) {
      ColorsNamed(fg, bg, look);
    }
  }

  function AddFlags(t: Terminal, flags: set<Flag>): Terminal {
    t.(look := t.look.(flags := t.look.flags + flags))
  }

  lemma AddFlagsTwice(t: Terminal, a: set<Flag>, b: set<Flag>)
    ensures AddFlags(AddFlags(t, a), b) == AddFlags(t, a + b)
  {
    assert t.look.flags + a + b == t.look.flags + (a + b);
  }

  class Screen {
    const width: nat
    const height: nat
    const back: array2<Cell>
    const front: array2<Cell>
    const printable: nat -> bool          // iswprint
    var lastX: int
    var lastY: int
    var fg: bv16                          // what clearing uses
    var bg: bv16
    var lastFg: bv16
    var lastBg: bv16
    var cursorX: int
    var cursorY: int
    var out: seq<Token>

    ghost predicate Valid() {
      && back != front
      && back.Length0 == front.Length0 == height && back.Length1 == front.Length1 == width
    }

    /** tb_reset and init_cellbuf: nothing has been sent yet. */
    constructor (width: nat, height: nat, printable: nat -> bool, fg: bv16, bg: bv16)
      ensures Valid() && fresh(back) && fresh(front) && out == []
      ensures this.width == width && this.height == height && this.printable == printable
      ensures this.fg == fg && this.bg == bg && Blank(front) && lastFg != fg
    {
      this.width, this.height, this.printable := width, height, printable;
      this.fg, this.bg := fg, bg;
      back := new Cell[height, width]((_, _) => Cell(' ' as nat, fg, bg));
      front := new Cell[height, width]((_, _) => Cell(' ' as nat, fg, bg));
      lastX, lastY, lastFg, lastBg, cursorX, cursorY, out := -1, -1, !fg, !bg, -1, -1, [];
    }

    /** The glyph a cell is to appear as: characters that cannot be printed become U+FFFD. */
    function Shown(c: Cell): Glyph {
      Glyph(if printable(c.ch) then c.ch else 0xFFFD, LookOf(c.fg, c.bg))
    }

    /** The terminal understands the state: it draws in the last attributes sent, and its cursor
        follows the last character sent, if there is one. */
    ghost predicate Tracks(t: Terminal)
      reads this
    {
      && t.width == width && t.height == height && !t.lost && t.look == LookOf(lastFg, lastBg)
      && (0 <= lastX && lastX + 1 < width && 0 <= lastY ==> t.cursor == At(lastX + 1, lastY))
      && (lastX < 0 ==> lastY < 0)
    }

    ghost predicate ShowsAt(t: Terminal, cells: array2<Cell>, x: nat, y: nat)
      requires y < cells.Length0 && x < cells.Length1
      reads cells
    {
      (x, y) in t.screen && t.screen[(x, y)] == Shown(cells[y, x])
    }

    /** A cell shown can be read back: its character, if it can be printed, and its attributes. */
    lemma ShownReads(t: Terminal, cells: array2<Cell>, x: nat, y: nat)
      requires y < cells.Length0 && x < cells.Length1 && ShowsAt(t, cells, x, y)
      ensures (x, y) in t.screen
      ensures t.screen[(x, y)].ch == if printable(cells[y, x].ch) then cells[y, x].ch else 0xFFFD
      ensures DrawsIn(t.screen[(x, y)].look, cells[y, x].fg, cells[y, x].bg)
    {
      LookDraws(cells[y, x].fg, cells[y, x].bg);
    }

    method Send(token: Token, ghost t: Terminal)
      modifies this`out
      ensures out == old(out) + [token] && FeedAll(t, out) == Feed(FeedAll(t, old(out)), token)
    {
      FeedOne(t, out, token);
      out := out + [token];
    }

    /** Every cell is a space in the attributes of clearing. */
    ghost predicate Blank(cells: array2<Cell>)
      reads this, cells
    {
      && cells.Length0 == height && cells.Length1 == width
      && forall x, y :: 0 <= x < width && 0 <= y < height ==> cells[y, x] == Cell(' ' as nat, fg, bg)
    }

    /** Sends the code of one flag if it is wanted. */
    method SendFlag(wanted: bool, flag: Flag, ghost t: Terminal)
      modifies this`out
      ensures FeedAll(t, out) == AddFlags(FeedAll(t, old(out)), FlagIf(wanted, flag))
    {
      if wanted {
        Send(SetFlag(flag), t);
      }
    }

    /** The part of send_attr that sends the flags. */
    method SendFlags(bold: bool, blink: bool, underline: bool, italic: bool, dim: bool, reverse: bool,
                     ghost t: Terminal)
      modifies this`out
      ensures FeedAll(t, out) == AddFlags(FeedAll(t, old(out)), FlagSet(bold, blink, underline, italic, dim, reverse))
    {
      ghost var start := FeedAll(t, out);
      var some := FlagIf(bold, Bold) + FlagIf(blink, Blink) + FlagIf(underline, Underline);
      SendFlag(bold, Bold, t);
      SendFlag(blink, Blink, t);
      AddFlagsTwice(start, FlagIf(bold, Bold), FlagIf(blink, Blink));
      SendFlag(underline, Underline, t);
      AddFlagsTwice(start, FlagIf(bold, Bold) + FlagIf(blink, Blink), FlagIf(underline, Underline));
      SendFlag(italic, Italic, t);
      AddFlagsTwice(start, some, FlagIf(italic, Italic));
      SendFlag(dim, Dim, t);
      AddFlagsTwice(start, some + FlagIf(italic, Italic), FlagIf(dim, Dim));
      SendFlag(reverse, Reverse, t);
      AddFlagsTwice(start, some + FlagIf(italic, Italic) + FlagIf(dim, Dim), FlagIf(reverse, Reverse));
    }

    /** send_attr */
    method SendAttr(fg: bv16, bg: bv16, ghost t: Terminal)
      requires fg == lastFg && bg == lastBg ==> FeedAll(t, out).look == LookOf(lastFg, lastBg)
      modifies this`out, this`lastFg, this`lastBg
      ensures lastFg == fg && lastBg == bg
      ensures FeedAll(t, out) == FeedAll(t, old(out)).(look := LookOf(fg, bg))
      ensures DrawsIn(FeedAll(t, out).look, fg, bg)
    {
      LookDraws(fg, bg);
      if fg == lastFg && bg == lastBg {
        return;
      }
      Restyle(Has(fg, TB_BOLD), Has(fg, TB_BLINK), Has(fg, TB_UNDERLINE), Has(fg, TB_ITALIC), Has(fg, TB_DIM),
              Has(fg, TB_REVERSE) || Has(bg, TB_REVERSE),
              CodeOf(fg, 30, 90), CodeOf(bg, 40, 100), IsDefault(fg), IsDefault(bg), t);
      lastFg, lastBg := fg, bg;
    }

    /** Resets the terminal and sets flags and colours: the outcome does not depend on what was
        set before. */
    method Restyle(bold: bool, blink: bool, underline: bool, italic: bool, dim: bool, reverse: bool,
                   cfg: nat, cbg: nat, fgIsDefault: bool, bgIsDefault: bool, ghost t: Terminal)
      modifies this`out
      ensures FeedAll(t, out) == FeedAll(t, old(out)).(look :=
        InterpretAll(Look(FlagSet(bold, blink, underline, italic, dim, reverse), Default, Default),
          Parameters(cfg, cbg, fgIsDefault, bgIsDefault)))
    {
      Send(Sgr0, t);
      SendFlags(bold, blink, underline, italic, dim, reverse, t);
      var flags := FlagSet(bold, blink, underline, italic, dim, reverse);
      assert PLAIN.flags + flags == flags;
      SendSgr(cfg, cbg, fgIsDefault, bgIsDefault, t);
    }

    /** send_sgr */
    method SendSgr(cfg: nat, cbg: nat, fgIsDefault: bool, bgIsDefault: bool, ghost t: Terminal)
      modifies this`out
      ensures var was := FeedAll(t, old(out));
        FeedAll(t, out) == was.(look := InterpretAll(was.look, Parameters(cfg, cbg, fgIsDefault, bgIsDefault)))
    {
      if fgIsDefault && bgIsDefault {
        return;
      }
      Send(Sgr(Parameters(cfg, cbg, fgIsDefault, bgIsDefault)), t);
    }

    /** send_cursor_if */
    method SendCursorIf(x: int, y: int, ghost t: Terminal)
      modifies this`out
      ensures FeedAll(t, out) ==
        if x < 0 || y < 0 then FeedAll(t, old(out)) else FeedAll(t, old(out)).(cursor := At(x, y))
    {
      if x < 0 || y < 0 {
        return;
      }
      Send(Goto(x, y), t);
    }

    /** send_char: the cursor is moved unless the character before was the one to the left. */
    method Type(x: nat, y: nat, shown: nat, ghost t: Terminal)
      requires lastX == x - 1 && lastY == y ==> FeedAll(t, out).cursor == At(x, y)
      modifies this`out, this`lastX, this`lastY
      ensures lastX == x && lastY == y
      ensures FeedAll(t, out) == Feed(FeedAll(t, old(out)).(cursor := At(x, y)), Print(shown))
    {
      if lastX != x - 1 || lastY != y {
        SendCursorIf(x, y, t);
      }
      lastX, lastY := x, y;
      Send(Print(shown), t);
    }

    lemma Printed(t: Terminal, x: nat, y: nat, ch: nat)
      requires t.cursor == At(x, y)
      ensures var r := Feed(t, Print(ch));
        && r.screen == t.screen[(x, y) := Glyph(ch, t.look)] && r.look == t.look
        && r.width == t.width && r.height == t.height && r.lost == t.lost
        && (x + 1 < t.width ==> r.cursor == At(x + 1, y))
    {
    }

    lemma TracksCursor(t: Terminal, x: nat, y: nat)
      requires x < width && Tracks(t) && lastX == x - 1 && lastY == y
      ensures t.cursor == At(x, y)
    {
    }

    /** send_char as tb_present uses it: the terminal stays understood. */
    method SendChar(x: nat, y: nat, ch: nat, ghost t: Terminal)
      requires x < width && Tracks(FeedAll(t, out))
      modifies this`out, this`lastX, this`lastY
      ensures lastX == x && lastY == y
      ensures Tracks(FeedAll(t, out)) && FeedAll(t, out).look == FeedAll(t, old(out)).look
      ensures FeedAll(t, out).screen ==
        var was := FeedAll(t, old(out));
        was.screen[(x, y) := Glyph(if printable(ch) then ch else 0xFFFD, was.look)]
    {
      if lastX == x - 1 && lastY == y {
        TracksCursor(FeedAll(t, out), x, y);
      }
      var shown := if printable(ch) then ch else 0xFFFD;
      Printed(FeedAll(t, out).(cursor := At(x, y)), x, y, shown);
      Type(x, y, shown, t);
    }

    ghost predicate Shows(t: Terminal, cells: array2<Cell>)
      requires cells.Length0 == height && cells.Length1 == width
      reads cells
    {
      forall x: nat, y: nat :: x < width && y < height ==> ShowsAt(t, cells, x, y)
    }

    /** The front buffer agrees with the back buffer before (x, y) in row-major order. */
    ghost predicate AgreesTo(x: nat, y: nat)
      requires Valid()
      reads front, back
    {
      forall i: nat, j: nat :: i < width && j < height && (j < y || (j == y && i < x)) ==> front[j, i] == back[j, i]
    }

    /** The body of the loops of tb_present: a cell is sent only if it differs. */
    method PresentCell(x: nat, y: nat, ghost t: Terminal)
      requires Valid() && x < width && y < height && Tracks(FeedAll(t, out)) && Shows(FeedAll(t, out), front)
      requires AgreesTo(x, y)
      modifies this`out, this`lastX, this`lastY, this`lastFg, this`lastBg, front
      ensures Tracks(FeedAll(t, out)) && Shows(FeedAll(t, out), front) && AgreesTo(x + 1, y)
    {
      var cell := back[y, x];
      if cell != front[y, x] {
        front[y, x] := cell;
        SendAttr(cell.fg, cell.bg, t);
        SendChar(x, y, cell.ch, t);
        forall i: nat, j: nat | i < width && j < height ensures ShowsAt(FeedAll(t, out), front, i, j) {
          assert old(ShowsAt(FeedAll(t, out), front, i, j));
        }
      }
    }

    method PresentRow(y: nat, ghost t: Terminal)
      requires Valid() && y < height && Tracks(FeedAll(t, out)) && Shows(FeedAll(t, out), front) && AgreesTo(0, y)
      modifies this`out, this`lastX, this`lastY, this`lastFg, this`lastBg, front
      ensures Tracks(FeedAll(t, out)) && Shows(FeedAll(t, out), front) && AgreesTo(0, y + 1)
    {
      for x := 0 to width
        invariant Tracks(FeedAll(t, out)) && Shows(FeedAll(t, out), front) && AgreesTo(x, y)
      {
        PresentCell(x, y, t);
      }
    }

    /** What an update relies on: the terminal shows the front buffer and draws in the attributes
        sent last. */
    ghost predicate Ready(t: Terminal)
      requires Valid()
      reads this, front
    {
      t.width == width && t.height == height && !t.lost && t.look == LookOf(lastFg, lastBg) && Shows(t, front)
    }

    /** cellbuf_clear */
    method ClearCells(cells: array2<Cell>)
      requires cells.Length0 == height && cells.Length1 == width
      modifies cells
      ensures Blank(cells)
    {
      for y := 0 to height
        invariant forall x, j :: 0 <= x < width && 0 <= j < y ==> cells[j, x] == Cell(' ' as nat, fg, bg)
      {
        for x := 0 to width
          invariant forall i, j :: 0 <= i < width && 0 <= j < y ==> cells[j, i] == Cell(' ' as nat, fg, bg)
          invariant forall i :: 0 <= i < x ==> cells[y, i] == Cell(' ' as nat, fg, bg)
        {
          cells[y, x] := Cell(' ' as nat, fg, bg);
        }
      }
    }

    /** send_clear: whatever the terminal showed and drew in before, it is ready for an update
        once the front buffer is blank. */
    method SendClear(ghost t: Terminal) returns (sent: seq<Token>)
      requires Valid() && out == [] && printable(' ' as nat) && Blank(front)
      requires t.width == width && t.height == height && !t.lost
      requires fg == lastFg && bg == lastBg ==> t.look == LookOf(lastFg, lastBg)
      modifies this`out, this`lastFg, this`lastBg, this`lastX, this`lastY
      ensures out == [] && lastFg == fg && lastBg == bg && Ready(FeedAll(t, sent))
    {
      SendAttr(fg, bg, t);
      ClearedShows(FeedAll(t, out));
      Send(ClearScreen, t);
      ghost var cleared := FeedAll(t, out);
      SendCursorIf(cursorX, cursorY, t);
      CursorAside(cleared, FeedAll(t, out), front);
      sent, out := out, [];
      lastX, lastY := -1, -1;
    }

    lemma AgreedShows(t: Terminal)
      requires Valid() && Shows(t, front) && AgreesTo(0, height)
      ensures Shows(t, back)
    {
      forall x: nat, y: nat | x < width && y < height ensures ShowsAt(t, back, x, y) {
        assert ShowsAt(t, front, x, y);
      }
    }

    /** What is shown does not depend on the cursor. */
    lemma CursorAside(t: Terminal, r: Terminal, cells: array2<Cell>)
      requires cells.Length0 == height && cells.Length1 == width && Shows(t, cells) && r.screen == t.screen
      ensures Shows(r, cells)
    {
      forall x: nat, y: nat | x < width && y < height ensures ShowsAt(r, cells, x, y) {
        assert ShowsAt(t, cells, x, y);
      }
    }

    /** A cleared terminal shows a blank buffer. */
    lemma ClearedShows(t: Terminal)
      requires Valid() && printable(' ' as nat) && Blank(front) && t.look == LookOf(fg, bg)
      requires t.width == width && t.height == height
      ensures Shows(Feed(t, ClearScreen), front)
    {
      forall x: nat, y: nat | x < width && y < height ensures ShowsAt(Feed(t, ClearScreen), front, x, y) {
        assert front[y, x] == Cell(' ' as nat, fg, bg);
      }
    }

    /** tb_invalidate for a window of unchanged size: the front buffer is cleared with the
        terminal, so that the next update sends every cell that is not blank. */
    method Invalidate(ghost t: Terminal) returns (sent: seq<Token>)
      requires Valid() && out == [] && printable(' ' as nat)
      requires t.width == width && t.height == height && !t.lost
      requires fg == lastFg && bg == lastBg ==> t.look == LookOf(lastFg, lastBg)
      modifies this`out, this`lastFg, this`lastBg, this`lastX, this`lastY, front
      ensures out == [] && Ready(FeedAll(t, sent)) && Blank(front)
    {
      ClearCells(front);
      sent := SendClear(t);
    }

    /** tb_present: if the terminal t shows the front buffer and draws in the attributes sent
        last, then after the tokens sent it shows the back buffer, the two buffers agree, and
        the terminal is ready for the next update. */
    method Present(ghost t: Terminal) returns (sent: seq<Token>)
      requires Valid() && out == [] && Ready(t)
      modifies this`out, this`lastX, this`lastY, this`lastFg, this`lastBg, front
      ensures Shows(FeedAll(t, sent), back) && Ready(FeedAll(t, sent)) && out == []
      ensures forall x, y :: 0 <= x < width && 0 <= y < height ==> front[y, x] == back[y, x]
      ensures 0 <= cursorX && 0 <= cursorY ==> FeedAll(t, sent).cursor == At(cursorX, cursorY)
    {
      lastX, lastY := -1, -1;
      for y := 0 to height
        invariant Tracks(FeedAll(t, out)) && Shows(FeedAll(t, out), front) && AgreesTo(0, y)
      {
        PresentRow(y, t);
      }
      ghost var shown := FeedAll(t, out);
      SendCursorIf(cursorX, cursorY, t);
      CursorAside(shown, FeedAll(t, out), front);
      AgreedShows(FeedAll(t, out));
      sent, out := out, [];
    }
  }

  /** tb_init and the first update: whatever terminal of the right size the program starts on, it
      shows the back buffer afterwards. */
  method StartAndPresent(width: nat, height: nat, printable: nat -> bool, fg: bv16, bg: bv16, ghost t: Terminal)
    returns (screen: Screen, sent: seq<Token>)
    requires printable(' ' as nat) && t.width == width && t.height == height && !t.lost
    ensures screen.Valid() && screen.Ready(FeedAll(t, sent)) && screen.Shows(FeedAll(t, sent), screen.back)
  {
    screen := new Screen(width, height, printable, fg, bg);
    var first := screen.SendClear(t);
    var second := screen.Present(FeedAll(t, first));
    sent := first + second;
    FeedBoth(t, first, second);
  }
}

/** The escape-sequence trie of libtermbox2/termbox2.h. Nodes are numbered, 0 being the root;
    the numbers stand for the source's pointers into the child arrays. */
module CapTries {

  datatype Node = Node(c: char, children: seq<nat>, isLeaf: bool, key: nat, mod: nat)

  datatype Key = Key(key: nat, mod: nat)

  datatype AddResult = Ok | Collision

  predicate StartsWith(w: string, s: string) {
    |s| <= |w| && w[..|s|] == s
  }

  /** The string begins some word of the map. */
  ghost predicate Begins(s: string, words: map<string, Key>) {
    exists w :: w in words && StartsWith(w, s)
  }

  lemma Longer(s: string, n: nat)
    requires n < |s|
    ensures s[..n + 1] == s[..n] + [s[n]]
  {
  }

  /** Node j hangs below node i and spells one character more. */
  ghost predicate Below(nodes: seq<Node>, spelled: seq<string>, i: nat, j: nat) {
    i < j < |nodes| && |nodes| == |spelled| && j in nodes[i].children && spelled[j] == spelled[i] + [nodes[j].c]
  }

  /** A node is a leaf exactly if its string was added. */
  ghost predicate LeafAgrees(node: Node, s: string, words: map<string, Key>) {
    && (node.isLeaf <==> s in words)
    && (node.isLeaf ==> words[s] == Key(node.key, node.mod))
  }

  /** What each node spells, who its parent is, and which words were added. Every node but the
      root lies on the way to an added word. */
  ghost predicate WellFormed(nodes: seq<Node>, spelled: seq<string>, parent: seq<nat>, words: map<string, Key>) {
    && |nodes| == |spelled| == |parent| > 0 && spelled[0] == ""
    && (forall i, j :: 0 <= i < |nodes| && j in nodes[i].children ==> Below(nodes, spelled, i, j))
    && (forall j :: 0 < j < |nodes| ==> Below(nodes, spelled, parent[j], j))
    && (forall i, j :: 0 <= i < j < |nodes| ==> spelled[i] != spelled[j])
    && (forall i :: 0 <= i < |nodes| ==> LeafAgrees(nodes[i], spelled[i], words))
    && (forall w :: w in words ==> w in spelled)
  }

  ghost predicate Needed(spelled: seq<string>, words: map<string, Key>) {
    forall i :: 0 < i < |spelled| ==> Begins(spelled[i], words)
  }

  lemma SameEnd(s: string, c: char, t: string, d: char)
    requires s + [c] == t + [d]
    ensures s == t && c == d
  {
    assert s == (s + [c])[..|s|] && t == (t + [d])[..|t|];
    assert (s + [c])[|s|] == c && (t + [d])[|t|] == d;
  }

  /** A child is missing exactly if no node spells the longer string. */
  lemma MissingChild(nodes: seq<Node>, spelled: seq<string>, parent: seq<nat>, words: map<string, Key>, i: nat, c: char)
    requires WellFormed(nodes, spelled, parent, words) && i < |nodes|
    requires forall j :: j in nodes[i].children && j < |nodes| ==> nodes[j].c != c
    ensures spelled[i] + [c] !in spelled
  {
    if spelled[i] + [c] in spelled {
      var j :| 0 <= j < |spelled| && spelled[j] == spelled[i] + [c];
      var k := parent[j];
      assert Below(nodes, spelled, k, j);
      SameEnd(spelled[i], c, spelled[k], nodes[j].c);
    }
  }

  lemma {:induction false} BeginningsSpelled(nodes: seq<Node>, spelled: seq<string>, parent: seq<nat>,
                                             words: map<string, Key>, j: nat, n: nat)
    requires WellFormed(nodes, spelled, parent, words) && j < |nodes| && n <= |spelled[j]|
    ensures spelled[j][..n] in spelled
    decreases j
  {
    if n == |spelled[j]| {
      assert spelled[j][..n] == spelled[j];
    } else {
      var i := parent[j];
      assert Below(nodes, spelled, i, j);
      BeginningsSpelled(nodes, spelled, parent, words, i, n);
      assert spelled[i][..n] == spelled[j][..n];
    }
  }

  /** A node spells a string exactly if the string is empty or begins an added word. */
  lemma SpelledIffBegins(nodes: seq<Node>, spelled: seq<string>, parent: seq<nat>, words: map<string, Key>, s: string)
    requires WellFormed(nodes, spelled, parent, words) && Needed(spelled, words)
    ensures s in spelled <==> s == "" || Begins(s, words)
  {
    if s == "" {
      assert spelled[0] == "";
    } else if Begins(s, words) {
      var w :| w in words && StartsWith(w, s);
      WordBeginningSpelled(nodes, spelled, parent, words, w, |s|);
    }
  }

  lemma WordBeginningSpelled(nodes: seq<Node>, spelled: seq<string>, parent: seq<nat>, words: map<string, Key>,
                             w: string, n: nat)
    requires WellFormed(nodes, spelled, parent, words) && w in words && n <= |w|
    ensures w[..n] in spelled
  {
    assert w in spelled;
    var j :| 0 <= j < |spelled| && spelled[j] == w;
    BeginningsSpelled(nodes, spelled, parent, words, j, n);
  }

  /** Hanging a new node below node i. */
  lemma GrowKeepsWellFormed(nodes: seq<Node>, spelled: seq<string>, parent: seq<nat>, words: map<string, Key>,
                            i: nat, c: char)
    requires WellFormed(nodes, spelled, parent, words) && i < |nodes|
    requires spelled[i] + [c] !in spelled
    ensures WellFormed(nodes[i := nodes[i].(children := nodes[i].children + [|nodes|])] + [Node(c, [], false, 0, 0)],
                       spelled + [spelled[i] + [c]], parent + [i], words)
  {
    var n := |nodes|;
    var nodes', spelled' := nodes[i := nodes[i].(children := nodes[i].children + [n])] + [Node(c, [], false, 0, 0)],
                            spelled + [spelled[i] + [c]];
    forall a, b | 0 <= a < |nodes'| && b in nodes'[a].children ensures Below(nodes', spelled', a, b) {
      if b != n {
        assert Below(nodes, spelled, a, b);
      }
    }
    forall b | 0 < b < |nodes'| ensures Below(nodes', spelled', (parent + [i])[b], b) {
      if b < n {
        assert Below(nodes, spelled, parent[b], b);
      }
    }
    assert spelled'[n] !in words;
    forall w | w in words ensures w in spelled' {
      assert w in spelled;
    }
  }

  /** Marking node i as the leaf of a new word. */
  lemma MarkKeepsWellFormed(nodes: seq<Node>, spelled: seq<string>, parent: seq<nat>, words: map<string, Key>,
                            i: nat, k: Key)
    requires WellFormed(nodes, spelled, parent, words) && i < |nodes|
    ensures WellFormed(nodes[i := nodes[i].(isLeaf := true, key := k.key, mod := k.mod)], spelled, parent,
                       words[spelled[i] := k])
  {
    var nodes' := nodes[i := nodes[i].(isLeaf := true, key := k.key, mod := k.mod)];
    forall a, b | 0 <= a < |nodes'| && b in nodes'[a].children ensures Below(nodes', spelled, a, b) {
      assert Below(nodes, spelled, a, b);
    }
    forall b | 0 < b < |nodes'| ensures Below(nodes', spelled, parent[b], b) {
      assert Below(nodes, spelled, parent[b], b);
    }
  }

  class CapTrie {
    var nodes: seq<Node>
    ghost var spelled: seq<string>
    ghost var parent: seq<nat>
    /** The strings added, each with the key of its first addition. */
    ghost var words: map<string, Key>

    ghost predicate Valid()
      reads this
    {
      WellFormed(nodes, spelled, parent, words) && Needed(spelled, words)
    }

    constructor ()
      ensures Valid() && words == map[]
    {
      nodes := [Node('\0', [], false, 0, 0)];
      spelled, parent, words := [""], [0], map[];
    }

    /** The loop over the children of a node. */
    method FindChild(i: nat, c: char) returns (found: bool, next: nat)
      requires WellFormed(nodes, spelled, parent, words) && i < |nodes|
      ensures found ==> Below(nodes, spelled, i, next) && nodes[next].c == c
      ensures !found ==> spelled[i] + [c] !in spelled
    {
      next := 0;
      var children := nodes[i].children;
      for j := 0 to |children|
        invariant forall k :: 0 <= k < j ==> children[k] < |nodes| && nodes[children[k]].c != c
      {
        assert Below(nodes, spelled, i, children[j]);
        if nodes[children[j]].c == c {
          return true, children[j];
        }
      }
      MissingChild(nodes, spelled, parent, words, i, c);
      return false, 0;
    }

    /** cap_trie_find: the deepest node spelled by a beginning of the buffer. */
    method Find(buf: string) returns (last: nat, depth: nat)
      requires Valid()
      ensures last < |nodes| && depth <= |buf| && spelled[last] == buf[..depth]
      ensures depth < |buf| ==> buf[..depth + 1] !in spelled
    {
      last, depth := 0, 0;
      while depth < |buf|
        invariant last < |nodes| && depth <= |buf| && spelled[last] == buf[..depth]
      {
        var found, next := FindChild(last, buf[depth]);
        Longer(buf, depth);
        if !found {
          return;
        }
        last, depth := next, depth + 1;
        if nodes[last].isLeaf && |nodes[last].children| < 1 {
          NoLonger(last, buf, depth);
          return;
        }
      }
    }

    lemma NoLonger(i: nat, buf: string, depth: nat)
      requires Valid() && i < |nodes| && nodes[i].children == [] && depth <= |buf| && spelled[i] == buf[..depth]
      ensures depth < |buf| ==> buf[..depth + 1] !in spelled
    {
      if depth < |buf| {
        MissingChild(nodes, spelled, parent, words, i, buf[depth]);
        Longer(buf, depth);
      }
    }

    /** Hangs a new child for character c below node i. */
    method NewChild(i: nat, c: char) returns (next: nat)
      requires WellFormed(nodes, spelled, parent, words) && i < |nodes| && spelled[i] + [c] !in spelled
      modifies this
      ensures WellFormed(nodes, spelled, parent, words) && words == old(words)
      ensures next < |nodes| && spelled[next] == old(spelled)[i] + [c] && spelled == old(spelled) + [spelled[next]]
    {
      GrowKeepsWellFormed(nodes, spelled, parent, words, i, c);
      next := |nodes|;
      nodes := nodes[i := nodes[i].(children := nodes[i].children + [next])] + [Node(c, [], false, 0, 0)];
      spelled, parent := spelled + [spelled[i] + [c]], parent + [i];
    }

    /** Every node but the root lies on the way to an added word or to cap. */
    ghost predicate NeededFor(cap: string)
      reads this
    {
      forall i :: 0 < i < |spelled| ==> Begins(spelled[i], words) || StartsWith(cap, spelled[i])
    }

    /** The loop of cap_trie_add: follows or creates the path that spells cap. */
    method Descend(cap: string) returns (node: nat)
      requires Valid()
      modifies this
      ensures WellFormed(nodes, spelled, parent, words) && NeededFor(cap) && words == old(words)
      ensures node < |nodes| && spelled[node] == cap
    {
      node := 0;
      for i := 0 to |cap|
        invariant WellFormed(nodes, spelled, parent, words) && NeededFor(cap) && words == old(words)
        invariant node < |nodes| && spelled[node] == cap[..i]
      {
        Longer(cap, i);
        var found, next := FindChild(node, cap[i]);
        if !found {
          next := NewChild(node, cap[i]);
        }
        node := next;
      }
      assert cap[..|cap|] == cap;
    }

    /** cap_trie_add: the first addition of a string wins. */
    method Add(cap: string, key: nat, mod: nat) returns (result: AddResult)
      requires Valid()
      modifies this
      ensures Valid()
      ensures words == if cap == "" || cap in old(words) then old(words) else old(words)[cap := Key(key, mod)]
      ensures result == if cap != "" && cap in old(words) then Collision else Ok
    {
      if |cap| == 0 {
        return Ok;
      }
      var node := Descend(cap);
      if nodes[node].isLeaf {
        NeededNow(spelled, words, words, cap);
        return Collision;
      }
      MarkKeepsWellFormed(nodes, spelled, parent, words, node, Key(key, mod));
      NeededNow(spelled, words, words[cap := Key(key, mod)], cap);
      nodes := nodes[node := nodes[node].(isLeaf := true, key := key, mod := mod)];
      words := words[cap := Key(key, mod)];
      return Ok;
    }

    /** extract_esc_cap: looks the beginning of the input up. With d the length of the longest
        beginning of the input that is empty or begins an added word, it succeeds exactly if those d
        characters are an added word, and asks for more input exactly if all of the input is a
        proper beginning of added words only. */
    method ExtractEscCap(buf: string) returns (result: Extracted)
      requires Valid()
      ensures exists d: nat :: Deepest(words, buf, d)
      ensures forall d: nat :: Deepest(words, buf, d) ==> result == Lookup(words, buf, d)
    {
      var node, depth := Find(buf);
      result := if nodes[node].isLeaf then Found(Key(nodes[node].key, nodes[node].mod), depth)
                else if |nodes[node].children| > 0 && |buf| <= depth then NeedMore
                else NotFound;
      Decided(buf, node, depth);
      forall d: nat | Deepest(words, buf, d) ensures d == depth {
        OneDeepest(words, buf, d, depth);
      }
    }

    /** What the node reached tells about the added words. */
    lemma Decided(buf: string, node: nat, depth: nat)
      requires Valid() && node < |nodes| && depth <= |buf| && spelled[node] == buf[..depth]
      requires depth < |buf| ==> buf[..depth + 1] !in spelled
      ensures Deepest(words, buf, depth)
      ensures nodes[node].isLeaf <==> buf[..depth] in words
      ensures nodes[node].isLeaf ==> words[buf[..depth]] == Key(nodes[node].key, nodes[node].mod)
      ensures !nodes[node].isLeaf && depth == |buf| ==> (|nodes[node].children| > 0 <==> Begins(buf, words))
    {
      SpelledIffBegins(nodes, spelled, parent, words, buf[..depth]);
      if depth < |buf| {
        SpelledIffBegins(nodes, spelled, parent, words, buf[..depth + 1]);
      } else {
        assert buf[..depth] == buf;
      }
      if !nodes[node].isLeaf {
        HasChildrenIffLonger(nodes, spelled, parent, words, node);
      }
    }
  }

  /** What the input means once its longest beginning that begins a word has length d. */
  ghost function Lookup(words: map<string, Key>, buf: string, d: nat): Extracted
    requires d <= |buf|
  {
    if buf[..d] in words then Found(words[buf[..d]], d)
    else if d == |buf| && Begins(buf, words) then NeedMore
    else NotFound
  }

  datatype Extracted = Found(key: Key, length: nat) | NeedMore | NotFound

  /** d is the length of the longest beginning of buf that is empty or begins an added word. */
  ghost predicate Deepest(words: map<string, Key>, buf: string, d: nat) {
    && d <= |buf| && (d == 0 || Begins(buf[..d], words))
    && (d < |buf| ==> !Begins(buf[..d + 1], words))
  }

  lemma StartsShorter(v: string, buf: string, m: nat, n: nat)
    ensures m <= n <= |buf| && StartsWith(v, buf[..n]) ==> StartsWith(v, buf[..m])
  {
    if m <= n <= |buf| && StartsWith(v, buf[..n]) {
      assert v[..n][..m] == v[..m] && buf[..n][..m] == buf[..m];
    }
  }

  /** A key whose sequence begins no longer one is recognised, whatever is typed behind it, and
      exactly its characters are used up. */
  lemma WholeKey(words: map<string, Key>, w: string, rest: string, d: nat)
    requires w in words && w != "" && forall v :: v in words && StartsWith(v, w) ==> v == w
    requires Deepest(words, w + rest, d)
    ensures d == |w| && Lookup(words, w + rest, d) == Found(words[w], |w|)
  {
    var buf := w + rest;
    assert buf[..|w|] == w && StartsWith(w, buf[..|w|]);
    StartsShorter(w, buf, d + 1, |w|);
    forall v | v in words ensures d > |w| ==> !StartsWith(v, buf[..d]) {
      StartsShorter(v, buf, |w|, d);
    }
  }

  /** A part of a sequence that is no key itself asks for more. */
  lemma PartOfKey(words: map<string, Key>, w: string, n: nat, d: nat)
    requires w in words && n < |w| && w[..n] !in words && Deepest(words, w[..n], d)
    ensures Lookup(words, w[..n], d) == NeedMore
  {
    var buf := w[..n];
    assert buf[..n] == buf && StartsWith(w, buf[..n]) && Begins(buf, words);
    StartsShorter(w, buf, d + 1, n);
  }

  /** Input whose first character begins no sequence is no key. */
  lemma NoKey(words: map<string, Key>, buf: string, d: nat)
    requires buf != "" && !Begins(buf[..1], words) && "" !in words && Deepest(words, buf, d)
    ensures Lookup(words, buf, d) == NotFound
  {
    forall v | v in words ensures d > 0 ==> !StartsWith(v, buf[..d]) {
      StartsShorter(v, buf, 1, d);
    }
    assert buf[..0] == "";
  }

  lemma OneDeepest(words: map<string, Key>, buf: string, d: nat, e: nat)
    requires Deepest(words, buf, d) && Deepest(words, buf, e)
    ensures d == e
  {
    ShorterBegins(words, buf, d + 1, e);
    ShorterBegins(words, buf, e + 1, d);
  }

  lemma ShorterBegins(words: map<string, Key>, buf: string, m: nat, n: nat)
    ensures m <= n <= |buf| && Begins(buf[..n], words) ==> Begins(buf[..m], words)
  {
    if m <= n <= |buf| && Begins(buf[..n], words) {
      var w :| w in words && StartsWith(w, buf[..n]);
      assert w[..n][..m] == w[..m] && buf[..n][..m] == buf[..m];
      assert StartsWith(w, buf[..m]);
    }
  }

  lemma NeededNow(spelled: seq<string>, words: map<string, Key>, words': map<string, Key>, cap: string)
    requires forall i :: 0 < i < |spelled| ==> Begins(spelled[i], words) || StartsWith(cap, spelled[i])
    requires words.Keys <= words'.Keys && cap in words'
    ensures Needed(spelled, words')
  {
    forall i | 0 < i < |spelled| ensures Begins(spelled[i], words') {
      if !StartsWith(cap, spelled[i]) {
        var w :| w in words && StartsWith(w, spelled[i]);
        assert w in words'.Keys;
      }
    }
  }

  lemma ChildrenAreOnTheWay(nodes: seq<Node>, spelled: seq<string>, parent: seq<nat>, words: map<string, Key>, i: nat)
    requires WellFormed(nodes, spelled, parent, words) && Needed(spelled, words) && i < |nodes|
    requires |nodes[i].children| > 0
    ensures Begins(spelled[i], words)
  {
    var j := nodes[i].children[0];
    assert Below(nodes, spelled, i, j);
    var w :| w in words && StartsWith(w, spelled[j]);
    assert w[..|spelled[i]|] == spelled[j][..|spelled[i]|] == spelled[i];
  }

  lemma LongerWordGivesChild(nodes: seq<Node>, spelled: seq<string>, parent: seq<nat>, words: map<string, Key>,
                             i: nat, w: string)
    requires WellFormed(nodes, spelled, parent, words) && i < |nodes|
    requires w in words && StartsWith(w, spelled[i]) && w != spelled[i]
    ensures |nodes[i].children| > 0
  {
    var n := |spelled[i]|;
    Longer(w, n);
    WordBeginningSpelled(nodes, spelled, parent, words, w, n + 1);
    if |nodes[i].children| == 0 {
      MissingChild(nodes, spelled, parent, words, i, w[n]);
    }
  }

  /** A node that is no leaf has children exactly if its string begins an added word. */
  lemma HasChildrenIffLonger(nodes: seq<Node>, spelled: seq<string>, parent: seq<nat>, words: map<string, Key>, i: nat)
    requires WellFormed(nodes, spelled, parent, words) && Needed(spelled, words) && i < |nodes|
    requires !nodes[i].isLeaf
    ensures |nodes[i].children| > 0 <==> Begins(spelled[i], words)
  {
    assert LeafAgrees(nodes[i], spelled[i], words);
    if |nodes[i].children| > 0 {
      ChildrenAreOnTheWay(nodes, spelled, parent, words, i);
    } else if Begins(spelled[i], words) {
      var w :| w in words && StartsWith(w, spelled[i]);
      LongerWordGivesChild(nodes, spelled, parent, words, i, w);
    }
  }
}

/** The UTF-8 codec of libtermbox2/termbox2.h, which also handles the five- and six-byte forms
    of section 2 of RFC 2279. Words are natural numbers below 2^32; the masks and shifts of the
    source are written as the arithmetic that SixBits, FirstByteMasks and FirstByteJoins show
    them to be. */
module Utf8 {

  type Byte = n: nat | n < 256
  type Word = n: nat | n < 0x1_0000_0000

  /** Six bits at a time: shift and mask are quotient and remainder by 64, and shifting in six
      bits is multiplying and adding. */
  lemma SixBits(c: bv32, b: bv32)
    ensures c == (c >> 6) * 64 + (c & 0x3f) && c & 0x3f < 64 && c >> 6 < 0x4000000
    ensures (c & 0x3f) | 0x80 == 0x80 + (c & 0x3f)
    ensures c < 0x4000000 ==> (c << 6) | (b & 0x3f) == c * 64 + (b & 0x3f)
  {
  }

  /** The masks of utf8_mask are remainders. */
  lemma FirstByteMasks(b: bv8)
    ensures b == (b >> 7) * 128 + (b & 0x7f) && b & 0x7f < 128
    ensures b == (b >> 5) * 32 + (b & 0x1f) && b & 0x1f < 32
    ensures b == (b >> 4) * 16 + (b & 0x0f) && b & 0x0f < 16
    ensures b == (b >> 3) * 8 + (b & 0x07) && b & 0x07 < 8
    ensures b == (b >> 2) * 4 + (b & 0x03) && b & 0x03 < 4
    ensures b == (b >> 1) * 2 + (b & 0x01) && b & 0x01 < 2
  {
  }

  /** Joining the length bits and the value of the first byte is adding them. */
  lemma FirstByteJoins(c: bv8)
    ensures c < 32 ==> c | 0xc0 == 0xc0 + c
    ensures c < 16 ==> c | 0xe0 == 0xe0 + c
    ensures c < 8 ==> c | 0xf0 == 0xf0 + c
    ensures c < 4 ==> c | 0xf8 == 0xf8 + c && c | 0xfc == 0xfc + c
  {
  }

  /** The table utf8_length: the length of a sequence by its first byte. */
  function Utf8Length(b: Byte): (n: nat)
    ensures 1 <= n <= 6
  {
    if b < 0xc0 then 1
    else if b < 0xe0 then 2
    else if b < 0xf0 then 3
    else if b < 0xf8 then 4
    else if b < 0xfc then 5
    else if b < 0xfe then 6
    else 1
  }

  /** One more than utf8_mask for a sequence of n bytes. */
  function Modulus(n: nat): (m: nat)
    requires 1 <= n <= 6
    ensures m > 0
  {
    if n == 1 then 128 else if n == 2 then 32 else if n == 3 then 16 else if n == 4 then 8 else if n == 5 then 4 else 2
  }

  /** The number of bytes tb_utf8_unicode_to_char uses for a code point. */
  function EncodedLength(c: Word): (n: nat)
    ensures 1 <= n <= 6
  {
    if c < 0x80 then 1
    else if c < 0x800 then 2
    else if c < 0x10000 then 3
    else if c < 0x200000 then 4
    else if c < 0x4000000 then 5
    else 6
  }

  /** The bits of the first byte that tell the length. */
  function FirstBits(n: nat): Byte
    requires 1 <= n <= 6
  {
    if n == 1 then 0
    else if n == 2 then 0xc0
    else if n == 3 then 0xe0
    else if n == 4 then 0xf0
    else if n == 5 then 0xf8
    else 0xfc
  }

  /** The bytes of a sequence of length n: the loop of tb_utf8_unicode_to_char fills it from the
      end, six bits at a time. */
  function EncodeTail(c: Word, n: nat, first: Byte): (r: seq<Byte>)
    requires n >= 1
    ensures |r| == n
    decreases n
  {
    if n == 1 then [(first + c) % 256]
    else EncodeTail(c / 64, n - 1, first) + [0x80 + c % 64]
  }

  function Encode(c: Word): (r: seq<Byte>)
    ensures |r| == EncodedLength(c)
  {
    EncodeTail(c, EncodedLength(c), FirstBits(EncodedLength(c)))
  }

  lemma Tail2(c: Word, first: Byte)
    ensures EncodeTail(c, 2, first) ==
      [(first + c / 64) % 256, 0x80 + c % 64]
  {
    assert EncodeTail(c / 64, 1, first) == [(first + c / 64) % 256];
  }

  lemma Tail3(c: Word, first: Byte)
    ensures EncodeTail(c, 3, first) ==
      [(first + c / 64 / 64) % 256, 0x80 + c / 64 % 64, 0x80 + c % 64]
  {
    Tail2(c / 64, first);
  }

  lemma Tail4(c: Word, first: Byte)
    ensures EncodeTail(c, 4, first) ==
      [(first + c / 64 / 64 / 64) % 256,
       0x80 + c / 64 / 64 % 64,
       0x80 + c / 64 % 64,
       0x80 + c % 64]
  {
    Tail3(c / 64, first);
  }

  lemma Tail5(c: Word, first: Byte)
    ensures EncodeTail(c, 5, first) ==
      [(first + c / 64 / 64 / 64 / 64) % 256,
       0x80 + c / 64 / 64 / 64 % 64,
       0x80 + c / 64 / 64 % 64,
       0x80 + c / 64 % 64,
       0x80 + c % 64]
  {
    Tail4(c / 64, first);
  }

  lemma Tail6(c: Word, first: Byte)
    ensures EncodeTail(c, 6, first) ==
      [(first + c / 64 / 64 / 64 / 64 / 64) % 256,
       0x80 + c / 64 / 64 / 64 / 64 % 64,
       0x80 + c / 64 / 64 / 64 % 64,
       0x80 + c / 64 / 64 % 64,
       0x80 + c / 64 % 64,
       0x80 + c % 64]
  {
    Tail5(c / 64, first);
  }

  /** The high bits of a code point fit the first byte. */
  lemma HighBits(c: Word)
    ensures c < 0x800 ==> c / 64 < 32
    ensures c < 0x10000 ==> c / 64 / 64 < 16
    ensures c < 0x200000 ==> c / 64 / 64 / 64 < 8
    ensures c < 0x4000000 ==> c / 64 / 64 / 64 / 64 < 4
    ensures c < 0x80000000 ==> c / 64 / 64 / 64 / 64 / 64 < 2
  {
  }

  /** The rows of the table of section 2 of RFC 2279, by the number of bytes. */
  lemma OneByte(c: Word)
    requires c < 0x80
    ensures Encode(c) == [c]
  {
  }

  lemma TwoBytes(c: Word)
    requires 0x80 <= c < 0x800
    ensures Encode(c) == [0xC0 + c / 64, 0x80 + c % 64]
  {
    HighBits(c);
    Tail2(c, 0xC0);
  }

  lemma ThreeBytes(c: Word)
    requires 0x800 <= c < 0x10000
    ensures Encode(c) == [0xE0 + c / 64 / 64, 0x80 + c / 64 % 64, 0x80 + c % 64]
  {
    HighBits(c);
    Tail3(c, 0xE0);
  }

  lemma FourBytes(c: Word)
    requires 0x10000 <= c < 0x200000
    ensures Encode(c) == [0xF0 + c / 64 / 64 / 64,
                          0x80 + c / 64 / 64 % 64,
                          0x80 + c / 64 % 64,
                          0x80 + c % 64]
  {
    HighBits(c);
    Tail4(c, 0xF0);
  }

  lemma FiveBytes(c: Word)
    requires 0x200000 <= c < 0x4000000
    ensures Encode(c) == [0xF8 + c / 64 / 64 / 64 / 64,
                          0x80 + c / 64 / 64 / 64 % 64,
                          0x80 + c / 64 / 64 % 64,
                          0x80 + c / 64 % 64,
                          0x80 + c % 64]
  {
    HighBits(c);
    Tail5(c, 0xF8);
  }

  lemma SixBytes(c: Word)
    requires 0x4000000 <= c < 0x80000000
    ensures Encode(c) == [0xFC + c / 64 / 64 / 64 / 64 / 64,
                          0x80 + c / 64 / 64 / 64 / 64 % 64,
                          0x80 + c / 64 / 64 / 64 % 64,
                          0x80 + c / 64 / 64 % 64,
                          0x80 + c / 64 % 64,
                          0x80 + c % 64]
  {
    HighBits(c);
    Tail6(c, 0xFC);
  }

  /** The outcome of tb_utf8_char_to_unicode on a string that ends with a zero byte. */
  datatype Decoded = Nothing | Truncated(read: nat) | Char(c: nat, length: nat)

  /** The value collected from the first n bytes of a sequence whose length is m. */
  function Collect(bs: seq<Byte>, n: nat, m: nat): nat
    requires 1 <= n <= |bs| && 1 <= m <= 6
  {
    if n == 1 then bs[0] % Modulus(m) else Collect(bs, n - 1, m) * 64 + bs[n - 1] % 64
  }

  /** The number of bytes before the first zero byte, counted up to n. */
  function Present(bs: seq<Byte>, n: nat): nat {
    if n == 0 || bs == [] || bs[0] == 0 then 0 else 1 + Present(bs[1..], n - 1)
  }

  function Decode(bs: seq<Byte>): Decoded {
    if bs == [] || bs[0] == 0 then Nothing
    else
      var n := Utf8Length(bs[0]);
      if |bs| < n || Present(bs, n) < n then Truncated(Present(bs, n)) else Char(Collect(bs, n, n), n)
  }

  /** After the shifts of the encoder the rest of the code point fits the first byte. */
  predicate Fits(c: Word, n: nat, m: nat)
    requires n >= 1 && 1 <= m <= 6
    decreases n
  {
    if n == 1 then c < Modulus(m) else Fits(c / 64, n - 1, m)
  }

  lemma CodePointFits(c: Word)
    requires c <= 0x7fffffff
    ensures Fits(c, EncodedLength(c), EncodedLength(c))
  {
    var n := EncodedLength(c);
    var c1 := c / 64;
    var c2 := c1 / 64;
    var c3 := c2 / 64;
    var c4 := c3 / 64;
    if n >= 3 {
      assert Fits(c1, n - 1, n) by {
        if n >= 4 {
          assert Fits(c2, n - 2, n) by {
            if n >= 5 {
              assert Fits(c3, n - 3, n) by {
                if n == 6 {
                  assert Fits(c4 / 64, 1, 6);
                  assert Fits(c4, 2, 6);
                }
              }
            }
          }
        }
      }
    }
  }

  /** The first byte of a sequence of length n tells the length and keeps the value. */
  lemma FirstByte(c: Word, n: nat)
    requires 1 <= n <= 6 && c < Modulus(n) && (n == 1 ==> c != 0)
    ensures var b := FirstBits(n) + c;
      0 < b < 256 && Utf8Length(b) == n && b % Modulus(n) == c
  {
  }

  lemma LastByte(c: Word)
    ensures (0x80 + c % 64) % 64 == c % 64 && c == c / 64 * 64 + c % 64
  {
  }

  /** Collecting the bytes of a sequence gives the code point back; no byte is zero. */
  lemma {:induction false} CollectEncoded(c: Word, n: nat, m: nat)
    requires 1 <= n <= m <= 6 && Fits(c, n, m) && (m == 1 ==> c != 0)
    ensures var bs := EncodeTail(c, n, FirstBits(m));
      && Collect(bs, n, m) == c && Utf8Length(bs[0]) == m
      && forall i :: 0 <= i < n ==> bs[i] != 0
    decreases n
  {
    if n == 1 {
      FirstByte(c, m);
    } else {
      var a, b := EncodeTail(c / 64, n - 1, FirstBits(m)), EncodeTail(c, n, FirstBits(m));
      CollectEncoded(c / 64, n - 1, m);
      CollectPrefix(a, b, n - 1, m);
      LastByte(c);
      assert b[n - 1] % 64 == c % 64 && b[n - 1] != 0;
    }
  }

  lemma {:induction false} CollectPrefix(a: seq<Byte>, b: seq<Byte>, n: nat, m: nat)
    requires 1 <= n <= |a| && n <= |b| && 1 <= m <= 6 && forall i :: 0 <= i < n ==> a[i] == b[i]
    ensures Collect(a, n, m) == Collect(b, n, m)
  {
    if n > 1 {
      CollectPrefix(a, b, n - 1, m);
    }
  }

  lemma {:induction false} PresentIs(bs: seq<Byte>, i: nat, n: nat)
    requires i <= n && i <= |bs| && (forall k :: 0 <= k < i ==> bs[k] != 0)
    requires i == n || i == |bs| || bs[i] == 0
    ensures Present(bs, n) == i
    decreases n
  {
    if i > 0 {
      PresentIs(bs[1..], i - 1, n - 1);
    }
  }

  lemma RoundTrip(c: Word, rest: seq<Byte>)
    requires 1 <= c <= 0x7fffffff
    ensures Decode(Encode(c) + rest) == Char(c, EncodedLength(c))
  {
    var n := EncodedLength(c);
    var bs := Encode(c) + rest;
    CodePointFits(c);
    CollectEncoded(c, n, n);
    PresentIs(bs, n, n);
    CollectPrefix(Encode(c), bs, n, n);
  }

  lemma {:induction false} FirstOfEncoded(c: Word, n: nat, first: Byte)
    requires n >= 1
    ensures EncodeTail(c, n, first)[0] == (first + Shifted(c, n)) % 256
    decreases n
  {
    if n > 1 {
      FirstOfEncoded(c / 64, n - 1, first);
    }
  }

  function Shifted(c: Word, n: nat): Word
    requires n >= 1
    decreases n
  {
    if n == 1 then c else Shifted(c / 64, n - 1)
  }

  /** Beyond 31 bits the first byte is 0xfe or 0xff, which the table takes for a single byte. */
  lemma TooLarge(c: Word, rest: seq<Byte>)
    requires c > 0x7fffffff
    ensures Decode(Encode(c) + rest) != Char(c, EncodedLength(c))
  {
    FirstOfEncoded(c, 6, 0xfc);
    var c2 := c / 64 / 64;
    var c4 := c2 / 64 / 64;
    assert Shifted(c, 6) == Shifted(c2, 4) == Shifted(c4, 2) == c4 / 64;
    assert (Encode(c) + rest)[0] == Encode(c)[0] >= 0xfe;
  }

  /** Decoding what was encoded gives the code point back, with the same length, exactly for
      the code points 1 to 0x7FFFFFFF. */
  lemma RoundTripIff(c: Word, rest: seq<Byte>)
    ensures Decode(Encode(c) + rest) == Char(c, EncodedLength(c)) <==> 1 <= c <= 0x7fffffff
  {
    if 1 <= c <= 0x7fffffff {
      RoundTrip(c, rest);
    } else if c > 0x7fffffff {
      TooLarge(c, rest);
    } else {
      assert (Encode(c) + rest)[0] == 0;
    }
  }

  /** tb_utf8_unicode_to_char */
  method UnicodeToChar(out: array<Byte>, c: Word) returns (len: nat)
    requires out.Length >= 7
    modifies out
    ensures len == EncodedLength(c) && out[..len] == Encode(c) && out[len] == 0
  {
    len := EncodedLength(c);
    var first := FirstBits(len);
    var rest := c;
    var i := len - 1;
    while i > 0
      invariant 0 <= i < len
      invariant EncodeTail(c, len, first) == EncodeTail(rest, i + 1, first) + out[i + 1..len]
    {
      out[i] := 0x80 + rest % 64;
      rest := rest / 64;
      assert out[i..len] == [out[i]] + out[i + 1..len];
      i := i - 1;
    }
    out[0] := (first + rest) % 256;
    out[len] := 0;
    assert out[..len] == [out[0]] + out[1..len];
  }

  /** tb_utf8_char_to_unicode on a string that ends with a zero byte; the result is the length
      read, 0 for the empty string, and negative if the string ends too soon. */
  method CharToUnicode(bs: array<Byte>) returns (result: int, out: nat)
    requires bs.Length > 0 && bs[bs.Length - 1] == 0
    ensures match Decode(bs[..])
      case Nothing => result == 0
      case Truncated(read) => result + read == 0
      case Char(c, length) => result == length && out == c
  {
    out := 0;
    if bs[0] == 0 {
      return 0, out;
    }
    var len := Utf8Length(bs[0]);
    var r := bs[0] % Modulus(len);
    var i := 1;
    while i < len && bs[i] != 0
      invariant 1 <= i <= len && i < bs.Length
      invariant forall k :: 0 <= k < i ==> bs[k] != 0
      invariant r == Collect(bs[..], i, len)
    {
      r := r * 64 + bs[i] % 64;
      i := i + 1;
    }
    PresentIs(bs[..], i, len);
    if i != len {
      return -i, out;
    }
    return len, r;
  }
}
