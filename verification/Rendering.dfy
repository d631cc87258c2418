/** The linked queue of libsnake/queue.h. */
module LinkedQueue {

  class Node<T(0)> {
    var item: T
    var next: Node?<T>

    constructor (item: T)
      ensures this.item == item && next == null
    {
      this.item, next := item, null;
    }
  }

  /** The i-th node, or null past the end. */
  ghost function At<T(0)>(nodes: seq<Node<T>>, i: nat): Node?<T> {
    if i < |nodes| then nodes[i] else null
  }

  /** After the last element has been popped `tail` is left dangling; only `head` tells. */
  class Queue<T(0)> {
    var head: Node?<T>
    var tail: Node?<T>
    ghost var items: seq<T>
    ghost var nodes: seq<Node<T>>

    ghost predicate Valid()
      reads this, nodes
    {
      && |items| == |nodes|
      && (forall i, j :: 0 <= i < j < |nodes| ==> nodes[i] != nodes[j])
      && (forall i :: 0 <= i < |nodes| ==> nodes[i].item == items[i])
      && (forall i :: 0 <= i < |nodes| ==> nodes[i].next == At(nodes, i + 1))
      && head == At(nodes, 0)
      && (nodes != [] ==> tail == nodes[|nodes| - 1])
    }

    constructor ()
      ensures Valid() && items == [] && nodes == []
    {
      head, tail, items, nodes := null, null, [], [];
    }

    method Push(item: T)
      requires Valid()
      modifies this, nodes
      ensures Valid() && items == old(items) + [item]
      ensures forall n :: n in nodes ==> n in old(nodes) || fresh(n)
    {
      var node := new Node(item);
      if head != null {
        tail.next := node;
        tail := node;
      } else {
        head := node;
        tail := node;
      }
      nodes, items := nodes + [node], items + [item];
    }

    method Pop() returns (ok: bool, item: T)
      requires Valid()
      modifies this
      ensures Valid() && ok == (old(items) != [])
      ensures ok ==> item == old(items)[0] && items == old(items)[1..] && nodes == old(nodes)[1..]
      ensures !ok ==> items == [] && nodes == old(nodes)
    {
      if head == null {
        item := *;
        return false, item;
      }
      ghost var rest := nodes[1..];
      assert forall i: nat :: At(rest, i) == At(nodes, i + 1);
      assert forall i :: 0 <= i < |rest| ==> At(rest, i) == rest[i];
      item := head.item;
      head := head.next;
      nodes, items := rest, items[1..];
      ok := true;
    }

    method Clear()
      requires Valid()
      modifies this
      ensures Valid() && items == [] && nodes == []
    {
      head, tail, items, nodes := null, null, [], [];
    }
  }
}

/** The client's render queue, its producers and the drawing thread
    (client/renderer/renderer.c, client/socket_client.c). */
module Rendering {
  import opened Torus
  import opened Field
  import opened GameMapClass
  import opened LinkedQueue

  datatype Command = Redraw | Update(at: Coord, tile: Tile)

  datatype Color = Default | Red | Green | Yellow | Blue | Magenta | Cyan

  datatype Glyph = Glyph(ch: char, color: Color)

  const FOREGROUND_COLORS: seq<Color> := [Red, Green, Yellow, Blue, Magenta, Cyan]

  /** renderer_get_tile_character and the colour chosen by renderer_update_tile */
  function Look(tile: Tile): Glyph {
    match tile.kind
    case Body => Glyph('*', FOREGROUND_COLORS[tile.player % 6])
    case Wall => Glyph('#', Default)
    case Fruit => Glyph('O', Default)
    case _ => Glyph(' ', Default)
  }

  /** The legend of the game: which tile a glyph stands for. */
  predicate StandsFor(glyph: Glyph, tile: Tile) {
    && (glyph.ch == '*' <==> tile.kind == Body)
    && (glyph.ch == '#' <==> tile.kind == Wall)
    && (glyph.ch == 'O' <==> tile.kind == Fruit)
    && (glyph.ch == ' ' <==> tile.kind == Empty || tile.kind == Dead)
    && (tile.kind != Body ==> glyph.color == Default)
    && (tile.kind == Body ==> ColorNumber(glyph.color) == 1 + tile.player % 6)
  }

  /** The colours in the order of the palette of a terminal. */
  function ColorNumber(color: Color): nat {
    match color
    case Default => 0
    case Red => 1
    case Green => 2
    case Yellow => 3
    case Blue => 4
    case Magenta => 5
    case Cyan => 6
  }

  lemma LookStandsFor(tile: Tile)
    ensures StandsFor(Look(tile), tile)
  {
  }

  type Screen = map<Coord, Glyph>

  /** How a field looks when drawn in full. */
  function Picture(tiles: map<Coord, Tile>): Screen {
    map c | c in tiles :: Look(tiles[c])
  }

  /** A picture has one glyph for each tile, and it can be read. */
  lemma PictureReads(tiles: map<Coord, Tile>)
    ensures Reads(Picture(tiles), tiles)
  {
    forall c | c in tiles ensures StandsFor(Picture(tiles)[c], tiles[c]) {
      LookStandsFor(tiles[c]);
    }
  }

  ghost predicate Reads(screen: Screen, tiles: map<Coord, Tile>) {
    screen.Keys == tiles.Keys && forall c :: c in tiles ==> StandsFor(screen[c], tiles[c])
  }

  /** The screen after the commands have been carried out, the field being `tiles` throughout. */
  function Draw(commands: seq<Command>, screen: Screen, tiles: map<Coord, Tile>): Screen
    decreases |commands|
  {
    if commands == [] then screen
    else
      var n := |commands| - 1;
      match commands[n]
      case Redraw => Picture(tiles)
      case Update(at, tile) => Draw(commands[..n], screen, tiles)[at := Look(tile)]
  }

  lemma {:induction false} DrawConcat(a: seq<Command>, b: seq<Command>, screen: Screen, tiles: map<Coord, Tile>)
    ensures Draw(a + b, screen, tiles) == Draw(b, Draw(a, screen, tiles), tiles)
    decreases |b|
  {
    if b == [] {
      assert a + b == a;
    } else {
      var n := |b| - 1;
      DrawConcat(a, b[..n], screen, tiles);
      assert (a + b)[..|a + b| - 1] == a + b[..n];
    }
  }

  /** A REDRAW is only ever the first element. */
  ghost predicate RedrawOnlyFirst(queue: seq<Command>) {
    forall i :: 0 < i < |queue| ==> queue[i].Update?
  }

  /** One iteration of renderer_main: the first command alone if it is a REDRAW, otherwise
      everything in the queue. */
  function Rest(queue: seq<Command>): seq<Command>
    requires queue != []
  {
    if queue[0].Redraw? then queue[1..] else []
  }

  function Drawn(queue: seq<Command>, screen: Screen, tiles: map<Coord, Tile>): Screen
    requires queue != []
  {
    if queue[0].Redraw? then Picture(tiles) else Draw(queue, screen, tiles)
  }

  /** The screen shows the tiles of g before (i, j) in row-major order and nothing else. */
  ghost predicate ShowsUpTo(screen: Screen, g: Grid, i: nat, j: nat) {
    && g.Valid()
    && (forall c :: c in screen <==> g.dims.Has(c) && (c.row < i || (c.row == i && c.col < j)))
    && (forall c :: c in screen ==> screen[c] == Look(g.tiles[c]))
  }

  lemma ShowNext(screen: Screen, g: Grid, i: nat, j: nat)
    requires ShowsUpTo(screen, g, i, j) && g.dims.Has(Coord(i, j))
    ensures ShowsUpTo(screen[Coord(i, j) := Look(g.tiles[Coord(i, j)])], g, i, j + 1)
  {
  }

  lemma RowShown(screen: Screen, g: Grid, i: nat)
    requires ShowsUpTo(screen, g, i, g.dims.width) && i < g.dims.height
    ensures ShowsUpTo(screen, g, i + 1, 0)
  {
  }

  lemma AllShown(screen: Screen, g: Grid)
    requires ShowsUpTo(screen, g, g.dims.height, 0)
    ensures screen == Picture(g.tiles)
  {
  }

  /** Of all commands, some are done and the rest is still to be carried out. */
  ghost predicate ToDraw(all: seq<Command>, done: seq<Command>, rest: seq<Command>) {
    all == done + rest && forall i :: 0 <= i < |all| ==> all[i].Update?
  }

  lemma NextToDraw(all: seq<Command>, done: seq<Command>, c: Command, rest: seq<Command>)
    requires ToDraw(all, done, [c] + rest)
    ensures c.Update? && |done| < |all| && ToDraw(all, done + [c], rest)
    ensures rest != [] ==> rest == [rest[0]] + rest[1..]
  {
    assert all[|done|] == c;
    assert done + ([c] + rest) == done + [c] + rest;
  }

  class Renderer {
    const queue: Queue<Command>
    var screen: Screen

    ghost predicate Valid()
      reads this, queue, queue.nodes
    {
      queue.Valid() && RedrawOnlyFirst(queue.items)
    }

    constructor (screen: Screen)
      ensures Valid() && fresh(queue) && queue.items == [] && this.screen == screen
    {
      this.screen := screen;
      queue := new Queue<Command>();
    }

    /** renderer_redraw */
    method RequestRedraw()
      requires Valid()
      modifies queue, queue.nodes
      ensures Valid() && queue.items == [Redraw]
    {
      queue.Clear();
      queue.Push(Redraw);
    }

    /** renderer_update */
    method RequestUpdate(at: Coord, tile: Tile)
      requires Valid()
      modifies queue, queue.nodes
      ensures Valid() && queue.items == old(queue.items) + [Update(at, tile)]
    {
      queue.Push(Update(at, tile));
    }

    /** renderer_update_tile */
    method UpdateTile(at: Coord, tile: Tile)
      modifies this`screen
      ensures screen == old(screen)[at := Look(tile)]
    {
      screen := screen[at := Look(tile)];
    }

    /** renderer_redraw_screen: the screen is cleared and every tile of the field drawn. */
    method RedrawScreen(field: GameMap)
      requires field.Valid()
      modifies this`screen
      ensures screen == Picture(field.View().tiles)
    {
      screen := map[];
      ghost var g := field.View();
      var height := field.dims.height;
      for i := 0 to height
        invariant field.View() == g && ShowsUpTo(screen, g, i, 0)
      {
        RedrawRow(field, i, g);
      }
      AllShown(screen, g);
    }

    method RedrawRow(field: GameMap, i: nat, ghost g: Grid)
      requires field.Valid() && g == field.View() && i < field.dims.height && ShowsUpTo(screen, g, i, 0)
      modifies this`screen
      ensures field.View() == g && ShowsUpTo(screen, g, i + 1, 0)
    {
      var width := field.dims.width;
      for j := 0 to width
        invariant field.View() == g && ShowsUpTo(screen, g, i, j)
      {
        ShowNext(screen, g, i, j);
        UpdateTile(Coord(i, j), field.TileAt(Coord(i, j)));
      }
      RowShown(screen, g, i);
    }

    /** One iteration of renderer_main on a queue that is not empty. The draining loop takes
        every command for an update, which RedrawOnlyFirst justifies. */
    method DrawNext(field: GameMap)
      requires Valid() && queue.items != [] && field.Valid()
      modifies this, queue
      ensures Valid() && queue.items == Rest(old(queue.items))
      ensures screen == Drawn(old(queue.items), old(screen), field.View().tiles)
    {
      ghost var all := queue.items;
      var ok, command := queue.Pop();
      if command.Redraw? {
        RedrawScreen(field);
      } else {
        Drain(field.View().tiles, all, command);
      }
    }

    /** Draws one update after the commands already carried out. */
    method DrawUpdate(command: Command, ghost done: seq<Command>, ghost start: Screen, ghost tiles: map<Coord, Tile>)
      requires command.Update? && screen == Draw(done, start, tiles)
      requires queue.Valid()
      modifies this`screen
      ensures screen == Draw(done + [command], start, tiles)
      ensures queue.Valid()
    {
      UpdateTile(command.at, command.tile);
      assert (done + [command])[..|done|] == done;
    }

    /** The do-while loop of renderer_main: `command` is the first of `all`, the rest are queued. */
    method Drain(ghost tiles: map<Coord, Tile>, ghost all: seq<Command>, first: Command)
      requires Valid() && all == [first] + queue.items && forall i :: 0 <= i < |all| ==> all[i].Update?
      modifies this, queue
      ensures Valid() && queue.items == []
      ensures screen == Draw(all, old(screen), tiles)
    {
      var ok, command := true, first;
      ghost var start, done := screen, [];
      while ok
        invariant queue.Valid() && screen == Draw(done, start, tiles)
        invariant ToDraw(all, done, if ok then [command] + queue.items else queue.items)
        invariant !ok ==> queue.items == []
        decreases |all| - |done|, ok
      {
        NextToDraw(all, done, command, queue.items);
        DrawUpdate(command, done, start, tiles);
        done := done + [command];
        ok, command := queue.Pop();
      }
      assert done == all;
    }
  }
}
