/** How the tiles of the game look on the terminal: from the renderer through the terminal library
    (client/renderer/renderer.c, libtermbox2/termbox2.h). */
module Display {
  import opened Torus
  import opened Field
  import Rendering
  import opened Terminals
  import opened Presenting

  /** TB_DEFAULT, TB_RED, TB_GREEN, TB_YELLOW, TB_BLUE, TB_MAGENTA and TB_CYAN */
  function Attribute(color: Rendering.Color): bv16 {
    match color
    case Default => 0x0000
    case Red => 0x0002
    case Green => 0x0003
    case Yellow => 0x0004
    case Blue => 0x0005
    case Magenta => 0x0006
    case Cyan => 0x0007
  }

  /** What renderer_update_tile puts into the back buffer for a tile. */
  function CellOf(tile: Tile): Cell {
    var glyph := Rendering.Look(tile);
    Cell(glyph.ch as nat, Attribute(glyph.color), 0)
  }

  /** The back buffer holds the tiles, one column and one row further on, beside the frame. */
  ghost predicate Holds(screen: Screen, tiles: map<Coord, Tile>)
    requires screen.Valid()
    reads screen.back
  {
    forall c :: c in tiles ==>
      c.row + 1 < screen.height && c.col + 1 < screen.width && screen.back[c.row + 1, c.col + 1] == CellOf(tiles[c])
  }

  /** A glyph on the terminal as the legend of the game reads it: the snakes in the six colours
      from red to cyan, everything else in the default colour, nothing bright and without flags. */
  ghost predicate Reads(glyph: Glyph, tile: Tile) {
    && (glyph.ch == '*' as nat <==> tile.kind == Body)
    && (glyph.ch == '#' as nat <==> tile.kind == Wall)
    && (glyph.ch == 'O' as nat <==> tile.kind == Fruit)
    && (glyph.ch == ' ' as nat <==> tile.kind == Empty || tile.kind == Dead)
    && glyph.look.bg == Default
    && glyph.look.fg == (if tile.kind == Body then Entry(1 + tile.player % 6, false) else Default)
    && glyph.look.flags == {}
  }

  lemma NoFlags(look: Look, fg: bv16, bg: bv16)
    requires DrawsIn(look, fg, bg) && fg < 0x0100 && bg < 0x0100
    ensures look.flags == {}
  {
    assert fg & 0x0100 == 0 && fg & 0x0200 == 0 && fg & 0x0400 == 0 && bg & 0x0400 == 0;
    assert fg & 0x0800 == 0 && fg & 0x1000 == 0 && fg & 0x8000 == 0;
    forall f ensures f !in look.flags {
      match f { case Bold => case Blink => case Underline => case Italic => case Dim => case Reverse => }
    }
  }

  lemma AttributeNames(color: Rendering.Color, look: Look)
    requires DrawsIn(look, Attribute(color), 0)
    ensures look.flags == {} && look.bg == Default
    ensures look.fg == if color == Rendering.Default then Default else Entry(Rendering.ColorNumber(color), false)
  {
    NoFlags(look, Attribute(color), 0);
  }

  /** After an update the terminal shows every tile where it belongs, as the legend says. */
  lemma TilesOnTerminal(screen: Screen, t: Terminal, tiles: map<Coord, Tile>, c: Coord)
    requires screen.Valid() && screen.Shows(t, screen.back) && Holds(screen, tiles) && c in tiles
    requires forall n: nat :: 32 <= n < 127 ==> screen.printable(n)
    ensures (c.col + 1, c.row + 1) in t.screen && Reads(t.screen[(c.col + 1, c.row + 1)], tiles[c])
  {
    var x, y := c.col + 1, c.row + 1;
    assert screen.ShowsAt(t, screen.back, x, y);
    screen.ShownReads(t, screen.back, x, y);
    Rendering.LookStandsFor(tiles[c]);
    AttributeNames(Rendering.Look(tiles[c]).color, t.screen[(x, y)].look);
  }
}
