/** Interleavings of the client's message loop, its input thread and the drawing thread. Every
    step is atomic under the queue lock or the map lock. */
module RenderProtocol {
  import opened Torus
  import opened Field
  import opened Rendering

  /** The request the message loop owes the renderer after having written the field. */
  datatype Pending = Nothing | OweRedraw | OweUpdate(at: Coord, tile: Tile)

  datatype Client = Client(tiles: map<Coord, Tile>, pending: Pending, queue: seq<Command>, screen: Screen)

  datatype Action =
    | WriteTile(at: Coord, tile: Tile)        // TILE_CHANGE: the field is written
    | WriteField(tiles: map<Coord, Tile>)     // MAP: the field is replaced
    | ChangeStatus                            // PLAYER_STATE with another status
    | Request                                 // the message loop calls the renderer
    | Resize                                  // the input thread calls renderer_redraw
    | DrawNext                                // one iteration of renderer_main

  ghost predicate Acts(m: Client, a: Action, n: Client) {
    match a
    case WriteTile(at, tile) =>
      m.pending.Nothing? && at in m.tiles && n == m.(tiles := m.tiles[at := tile], pending := OweUpdate(at, tile))
    case WriteField(tiles) =>
      m.pending.Nothing? && n == m.(tiles := tiles, pending := OweRedraw)
    case ChangeStatus =>
      m.pending.Nothing? && n == m.(pending := OweRedraw)
    case Request =>
      var queue := if m.pending.OweRedraw? then [Redraw] else m.queue + Owed(m);
      !m.pending.Nothing? && n == m.(pending := Nothing, queue := queue)
    case Resize =>
      n == m.(queue := [Redraw])
    case DrawNext =>
      m.queue != [] && n == m.(queue := Rest(m.queue), screen := Drawn(m.queue, m.screen, m.tiles))
  }

  function Owed(m: Client): seq<Command> {
    match m.pending
    case OweUpdate(at, tile) => [Update(at, tile)]
    case _ => []
  }

  /** A REDRAW is only ever first, and an owed update is that of a tile as it stands. */
  ghost predicate Tidy(m: Client) {
    && RedrawOnlyFirst(m.queue)
    && (m.pending.OweUpdate? ==> m.pending.at in m.tiles && m.tiles[m.pending.at] == m.pending.tile)
  }

  /** Unless a redraw is owed, carrying out what is queued and owed would make the screen show
      the field. */
  ghost predicate Coherent(m: Client) {
    && Tidy(m)
    && (!m.pending.OweRedraw? ==> Draw(m.queue + Owed(m), m.screen, m.tiles) == Picture(m.tiles))
  }

  /** Writing a tile and then drawing it last. */
  lemma {:induction false} DrawAfterWrite(
      q: seq<Command>, screen: Screen, tiles: map<Coord, Tile>, at: Coord, tile: Tile)
    requires at in tiles
    ensures Draw(q, screen, tiles[at := tile])[at := Look(tile)] == Draw(q, screen, tiles)[at := Look(tile)]
    decreases |q|
  {
    if q != [] {
      var n := |q| - 1;
      DrawAfterWrite(q[..n], screen, tiles, at, tile);
      match q[n]
      case Redraw =>
        assert Picture(tiles[at := tile])[at := Look(tile)] == Picture(tiles)[at := Look(tile)];
      case Update(c, t) =>
        var x, y := Draw(q[..n], screen, tiles[at := tile]), Draw(q[..n], screen, tiles);
        if c == at {
          assert x[c := Look(t)][at := Look(tile)] == x[at := Look(tile)];
          assert y[c := Look(t)][at := Look(tile)] == y[at := Look(tile)];
        } else {
          assert x[c := Look(t)][at := Look(tile)] == x[at := Look(tile)][c := Look(t)];
          assert y[c := Look(t)][at := Look(tile)] == y[at := Look(tile)][c := Look(t)];
        }
    }
  }

  lemma DrawLast(q: seq<Command>, c: Command, screen: Screen, tiles: map<Coord, Tile>)
    ensures Draw(q + [c], screen, tiles) ==
      if c.Redraw? then Picture(tiles) else Draw(q, screen, tiles)[c.at := Look(c.tile)]
  {
    assert (q + [c])[..|q|] == q;
  }

  lemma WriteKeepsCoherent(m: Client, at: Coord, tile: Tile, n: Client)
    requires Coherent(m) && Acts(m, WriteTile(at, tile), n)
    ensures Coherent(n)
  {
    DrawLast(m.queue, Update(at, tile), m.screen, n.tiles);
    DrawAfterWrite(m.queue, m.screen, m.tiles, at, tile);
    assert m.queue + [] == m.queue;
    assert Picture(m.tiles)[at := Look(tile)] == Picture(n.tiles);
  }

  /** Queueing a redraw makes everything that was missed before good. */
  lemma RedrawMakesCoherent(m: Client, n: Client)
    requires Tidy(m) && (n == m.(queue := [Redraw]) || n == m.(queue := [Redraw], pending := Nothing))
    ensures Coherent(n)
  {
    assert [Redraw] + [] == [Redraw];
    assert Draw([Redraw], m.screen, m.tiles) == Picture(m.tiles);
    if n.pending.OweUpdate? {
      DrawLast([Redraw], Owed(n)[0], m.screen, m.tiles);
      assert Picture(m.tiles)[n.pending.at := Look(n.pending.tile)] == Picture(m.tiles);
    }
  }

  lemma DrawKeepsCoherent(m: Client, n: Client)
    requires Coherent(m) && Acts(m, DrawNext, n)
    ensures Coherent(n)
  {
    var q := m.queue;
    DrawConcat(q, Owed(m), m.screen, m.tiles);
    DrawConcat(n.queue, Owed(m), n.screen, m.tiles);
    if q[0].Redraw? {
      assert q == [Redraw] + q[1..];
      DrawConcat([Redraw], q[1..], m.screen, m.tiles);
    }
  }

  lemma ActKeepsCoherent(m: Client, a: Action, n: Client)
    requires Coherent(m) && Acts(m, a, n)
    ensures Coherent(n)
  {
    match a
    case WriteTile(at, tile) => WriteKeepsCoherent(m, at, tile, n);
    case WriteField(tiles) =>
    case ChangeStatus =>
    case Request =>
      if m.pending.OweRedraw? {
        RedrawMakesCoherent(m, n);
      } else {
        assert n.queue + [] == n.queue;
      }
    case Resize => RedrawMakesCoherent(m, n);
    case DrawNext => DrawKeepsCoherent(m, n);
  }

  lemma ActKeepsTidy(m: Client, a: Action, n: Client)
    requires Tidy(m) && Acts(m, a, n)
    ensures Tidy(n)
  {
  }

  /** The actions that lead to a redraw. */
  predicate AsksForRedraw(a: Action) {
    a.WriteField? || a == ChangeStatus || a == Resize
  }

  lemma RedrawAsked(m: Client, a: Action, n: Client)
    requires Tidy(m) && Acts(m, a, n) && AsksForRedraw(a)
    ensures Coherent(n)
  {
    if a == Resize {
      RedrawMakesCoherent(m, n);
    }
  }

  /** A run starts with an empty queue, whatever the field and the screen hold. */
  ghost predicate Run(ms: seq<Client>, acts: seq<Action>) {
    && |ms| == |acts| + 1 && ms[0].pending == Nothing && ms[0].queue == []
    && forall i :: 0 <= i < |acts| ==> Acts(ms[i], acts[i], ms[i + 1])
  }

  predicate Redrawn(acts: seq<Action>, i: nat)
    requires i <= |acts|
  {
    exists j :: 0 <= j < i && AsksForRedraw(acts[j])
  }

  lemma {:induction false} RunStaysTidy(ms: seq<Client>, acts: seq<Action>, i: nat)
    requires Run(ms, acts) && i < |ms|
    ensures Tidy(ms[i])
  {
    if i > 0 {
      RunStaysTidy(ms, acts, i - 1);
      ActKeepsTidy(ms[i - 1], acts[i - 1], ms[i - 1 + 1]);
    }
  }

  /** From the first field, status or resize on, the queue makes the screen show the field. */
  lemma {:induction false} RunStaysCoherent(ms: seq<Client>, acts: seq<Action>, i: nat)
    requires Run(ms, acts) && i < |ms| && Redrawn(acts, i)
    ensures Coherent(ms[i])
  {
    if i > 0 {
      RunStaysTidy(ms, acts, i - 1);
      if Redrawn(acts, i - 1) {
        RunStaysCoherent(ms, acts, i - 1);
        ActKeepsCoherent(ms[i - 1], acts[i - 1], ms[i - 1 + 1]);
      } else {
        RedrawAsked(ms[i - 1], acts[i - 1], ms[i - 1 + 1]);
      }
    }
  }

  /** In every interleaving the draining loop never meets a REDRAW, and whenever nothing is
      queued or owed after the first redraw was asked for, the screen shows the client's field. */
  lemma QuiescentScreenShowsField(ms: seq<Client>, acts: seq<Action>, i: nat)
    requires Run(ms, acts) && i < |ms|
    ensures RedrawOnlyFirst(ms[i].queue)
    ensures Redrawn(acts, i) && ms[i].queue == [] && ms[i].pending == Nothing ==> ms[i].screen == Picture(ms[i].tiles)
  {
    RunStaysTidy(ms, acts, i);
    if Redrawn(acts, i) {
      RunStaysCoherent(ms, acts, i);
    }
  }

  /** Then the field can be read off the screen by the legend. */
  lemma QuiescentScreenReads(ms: seq<Client>, acts: seq<Action>, i: nat)
    requires Run(ms, acts) && i < |ms| && Redrawn(acts, i) && ms[i].queue == [] && ms[i].pending == Nothing
    ensures Reads(ms[i].screen, ms[i].tiles)
  {
    QuiescentScreenShowsField(ms, acts, i);
    PictureReads(ms[i].tiles);
  }
}
