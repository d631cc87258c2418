/** The server, a sending thread, the bytes on their way and a client, all interleaved. */
module EndToEnd {
  import opened Torus
  import opened Field
  import opened Changes
  import opened Parcels
  import opened Histories
  import opened Rendering
  import Wire
  import WireIO
  import ClientFeed
  import Runs
  import Replica = Mirrors
  import Drawing = RenderProtocol

  datatype World = World(replica: Replica.System, wire: seq<Wire.Byte>, client: Drawing.Client)

  datatype Move =
    | Serve(act: Replica.Action, bytes: seq<Wire.Byte>)   // the server or its sending thread
    | SendStatus(status: nat, direction: nat)             // client_connection_send_player_state
    | Receive                                             // the message loop handles one message
    | Show(drawing: Drawing.Action)                       // the renderer, or a resize

  /** The bytes the sending thread puts on the stream. */
  ghost predicate Sends(h: History, d: Dims, m: Replica.System, a: Replica.Action, bytes: seq<Wire.Byte>)
    requires h.Valid()
  {
    match a
    case SendFirstMap =>
      m.version < |h.maps|
      && exists msg :: IsFieldMessage(d, h.maps[m.version], msg) && bytes == Wire.Bytes(msg)
    case SendMap =>
      m.version < |h.maps|
      && exists msg :: IsFieldMessage(d, h.maps[m.version], msg) && bytes == Wire.Bytes(msg)
    case SendLog => m.version < |h.maps| && bytes == Wire.StreamBytes(ClientFeed.ToMessages(h.logs[m.version]))
    case _ => bytes == []
  }

  /** What WireIO.InitMap makes of a field. */
  ghost predicate IsFieldMessage(d: Dims, tiles: map<Coord, Tile>, m: Wire.Message) {
    && Grid(d, tiles).Valid() && m.Map? && m.width == d.width && m.height == d.height
    && WireIO.Lists(Grid(d, tiles), m.tiles)
  }

  /** What the message loop does with a message: WireIO.DeserializeToMap or one tile, and then
      the renderer is told. A status leads to a redraw if it differs from the last one. */
  ghost predicate Handles(m: Wire.Message, c: Drawing.Client, n: Drawing.Client) {
    match m
    case Map(width, height, ts) =>
      exists tiles :: IsFilled(Dims(width, height), tiles, ts) && Drawing.Acts(c, Drawing.WriteField(tiles), n)
    case TileChange(row, column, tile) =>
      Drawing.Acts(c, Drawing.WriteTile(Coord(row, column), WireIO.FromData(tile)), n)
    case PlayerState(_, _) => c.pending.Nothing? && (n == c || Drawing.Acts(c, Drawing.ChangeStatus, n))
    case _ => c.pending.Nothing? && n == c
  }

  ghost predicate IsFilled(d: Dims, tiles: map<Coord, Tile>, ts: seq<Wire.TileData>) {
    Grid(d, tiles).Valid() && forall c :: d.Has(c) ==> WireIO.FilledAt(Grid(d, tiles), ts, c)
  }

  ghost predicate Happens(h: History, d: Dims, w: World, v: Move, n: World)
    requires h.Valid()
  {
    match v
    case Serve(a, bytes) =>
      && Replica.Acts(h, w.replica, a, n.replica) && Replica.Timely(w.replica, a)
      && Sends(h, d, w.replica, a, bytes) && n == w.(replica := n.replica, wire := w.wire + bytes)
    case SendStatus(status, direction) =>
      var m := Wire.PlayerState(status, direction);
      Wire.InRange(m) && n == w.(wire := w.wire + Wire.Bytes(m))
    case Receive =>
      exists m, rest :: Wire.Parse(w.wire) == Wire.Got(m, rest) && Handles(m, w.client, n.client)
        && n == w.(wire := rest, client := n.client)
    case Show(a) =>
      (a.Request? || a.Resize? || a.DrawNext?) && Drawing.Acts(w.client, a, n.client) && n == w.(client := n.client)
  }

  /** The history is one of fields of the given size whose numbers fit their types on the wire. */
  ghost predicate Sendable(h: History, d: Dims) {
    && h.Valid()
    && (forall k :: 0 <= k < |h.maps| ==> FieldFits(d, h.maps[k]))
    && forall k :: 0 <= k < |h.logs| ==> ClientFeed.InField(d, h.logs[k])
  }

  ghost predicate FieldFits(d: Dims, tiles: map<Coord, Tile>) {
    Grid(d, tiles).Valid() && forall c :: c in tiles ==> WireIO.Fits(tiles[c])
  }

  predicate Started(phase: Replica.Phase) {
    phase == Replica.Waiting || phase.Woken?
  }

  /** With the parcels on their way delivered, the client's field is the mirror. */
  ghost predicate Sound(h: History, d: Dims, w: World, ps: seq<Parcel>)
    requires h.Valid()
  {
    && Carries(d, w.wire, ps) && Replica.InStep(h, w.replica) && Drawing.Tidy(w.client)
    && InOrder(d, ps, w.client.tiles.Keys == d.All())
    && (Started(w.replica.phase) ==>
          && Deliver(ps, w.client.tiles) == w.replica.mirror
          && (HasWhole(ps) || (Drawing.Coherent(w.client) && w.client.tiles.Keys == d.All())))
  }

  lemma FieldCarried(h: History, d: Dims, m: Replica.System, a: Replica.Action, bytes: seq<Wire.Byte>)
    requires Sendable(h, d) && Sends(h, d, m, a, bytes) && (a == Replica.SendFirstMap || a == Replica.SendMap)
    ensures m.version < |h.maps| && h.maps[m.version].Keys == d.All()
    ensures Carries(d, bytes, [Whole(h.maps[m.version])])
  {
    assert FieldFits(d, h.maps[m.version]);
    var msg :| IsFieldMessage(d, h.maps[m.version], msg) && bytes == Wire.Bytes(msg);
    CarriesOne(d, Whole(h.maps[m.version]), msg);
  }

  lemma MapSent(h: History, d: Dims, w: World, ps: seq<Parcel>, a: Replica.Action, bytes: seq<Wire.Byte>, n: World)
    requires Sendable(h, d) && Sound(h, d, w, ps) && Happens(h, d, w, Serve(a, bytes), n)
    requires a == Replica.SendFirstMap || a == Replica.SendMap
    ensures Sound(h, d, n, ps + [Whole(h.maps[w.replica.version])])
  {
    Replica.ActKeepsInStep(h, w.replica, a, n.replica);
    var p := Whole(h.maps[w.replica.version]);
    FieldCarried(h, d, w.replica, a, bytes);
    CarriesMore(d, w.wire, ps, bytes, [p]);
    DeliverMore(ps, [p], w.client.tiles);
    DeliverSingle(p, Deliver(ps, w.client.tiles));
    assert [p][0].Whole? && [p][1..] == [];
    HasWholeMore(ps, [p]);
    InOrderMore(d, ps, [p], w.client.tiles.Keys == d.All());
  }

  lemma LogSent(h: History, d: Dims, w: World, ps: seq<Parcel>, bytes: seq<Wire.Byte>, n: World)
    requires Sendable(h, d) && Sound(h, d, w, ps) && Happens(h, d, w, Serve(Replica.SendLog, bytes), n)
    ensures Sound(h, d, n, ps + Ones(h.logs[w.replica.version]))
  {
    Replica.ActKeepsInStep(h, w.replica, Replica.SendLog, n.replica);
    var log := h.logs[w.replica.version];
    assert ClientFeed.InField(d, log) && FieldFits(d, h.maps[0]);
    LogCarries(d, log);
    CarriesMore(d, w.wire, ps, bytes, Ones(log));
    DeliverMore(ps, Ones(log), w.client.tiles);
    DeliverLog(log, Deliver(ps, w.client.tiles));
    HasWholeMore(ps, Ones(log));
    OnesInOrder(d, log);
    InOrderMore(d, ps, Ones(log), w.client.tiles.Keys == d.All());
  }

  lemma NothingSent(h: History, d: Dims, w: World, ps: seq<Parcel>, a: Replica.Action, bytes: seq<Wire.Byte>, n: World)
    requires h.Valid() && Sound(h, d, w, ps) && Happens(h, d, w, Serve(a, bytes), n)
    requires a != Replica.SendFirstMap && a != Replica.SendMap && a != Replica.SendLog
    ensures Sound(h, d, n, ps)
  {
    Replica.ActKeepsInStep(h, w.replica, a, n.replica);
    assert w.wire + [] == w.wire;
  }

  lemma StatusSent(h: History, d: Dims, w: World, ps: seq<Parcel>, status: nat, direction: nat, n: World)
    requires Sendable(h, d) && Sound(h, d, w, ps) && Happens(h, d, w, SendStatus(status, direction), n)
    ensures Sound(h, d, n, ps + [Status(status, direction)])
  {
    var p := Status(status, direction);
    CarriesOne(d, p, Wire.PlayerState(status, direction));
    CarriesMore(d, w.wire, ps, Wire.Bytes(Wire.PlayerState(status, direction)), [p]);
    DeliverMore(ps, [p], w.client.tiles);
    DeliverSingle(p, Deliver(ps, w.client.tiles));
    HasWholeMore(ps, [p]);
    assert [p][1..] == [];
    InOrderMore(d, ps, [p], w.client.tiles.Keys == d.All());
  }

  lemma ServeKeepsSound(
      h: History, d: Dims, w: World, ps: seq<Parcel>, a: Replica.Action, bytes: seq<Wire.Byte>, n: World)
    returns (qs: seq<Parcel>)
    requires Sendable(h, d) && Sound(h, d, w, ps) && Happens(h, d, w, Serve(a, bytes), n)
    ensures Sound(h, d, n, qs)
  {
    if a == Replica.SendFirstMap || a == Replica.SendMap {
      MapSent(h, d, w, ps, a, bytes, n);
      qs := ps + [Whole(h.maps[w.replica.version])];
    } else if a == Replica.SendLog {
      LogSent(h, d, w, ps, bytes, n);
      qs := ps + Ones(h.logs[w.replica.version]);
    } else {
      NothingSent(h, d, w, ps, a, bytes, n);
      qs := ps;
    }
  }

  /** The message read is the first of those on their way. */
  lemma FirstArrives(d: Dims, wire: seq<Wire.Byte>, ps: seq<Parcel>) returns (m: Wire.Message, rest: seq<Wire.Byte>)
    requires Carries(d, wire, ps) && ps != []
    ensures Encodes(d, ps[0], m) && Wire.Parse(wire) == Wire.Got(m, rest) && Carries(d, rest, ps[1..])
  {
    rest :| Leads(d, ps[0], wire, rest) && Carries(d, rest, ps[1..]);
    m :| Encodes(d, ps[0], m) && wire == Wire.Bytes(m) + rest;
    EncodedArrives(d, ps[0], m, rest);
  }

  /** Handling a message has the effect of its parcel, asks for a redraw if that is a whole
      field, and keeps the screen within reach of the field. */
  lemma HandledEffect(d: Dims, p: Parcel, m: Wire.Message, c: Drawing.Client, n: Drawing.Client)
    requires Encodes(d, p, m) && Handles(m, c, n) && Drawing.Tidy(c)
    ensures n.tiles == Effect(p, c.tiles) && Drawing.Tidy(n)
    ensures p.Whole? || Drawing.Coherent(c) ==> Drawing.Coherent(n)
    ensures p.One? ==> p.c.at in c.tiles
  {
    match p
    case Whole(tiles) =>
      var filled :|
        IsFilled(Dims(m.width, m.height), filled, m.tiles) && Drawing.Acts(c, Drawing.WriteField(filled), n);
      WireIO.FilledFieldIsSame(Grid(d, tiles), m.tiles, Grid(d, filled));
      Drawing.RedrawAsked(c, Drawing.WriteField(filled), n);
    case One(x) =>
      ClientFeed.ChangeInRange(d, x);
      var a := Drawing.WriteTile(x.at, x.tile);
      assert Drawing.Acts(c, a, n);
      Drawing.ActKeepsTidy(c, a, n);
      if Drawing.Coherent(c) {
        Drawing.ActKeepsCoherent(c, a, n);
      }
    case Status(_, _) =>
      if n != c {
        Drawing.RedrawAsked(c, Drawing.ChangeStatus, n);
      }
  }

  lemma ReceiveKeepsSound(h: History, d: Dims, w: World, ps: seq<Parcel>, n: World)
    requires h.Valid() && Sound(h, d, w, ps) && Happens(h, d, w, Receive, n)
    ensures ps != [] && Sound(h, d, n, ps[1..])
  {
    assert Wire.Parse([]) == Wire.Failed;
    var m, rest := FirstArrives(d, w.wire, ps);
    HandledEffect(d, ps[0], m, w.client, n.client);
    if HasWhole(ps) && !ps[0].Whole? {
      HasWholeRest(ps);
    }
  }

  lemma ShowKeepsSound(h: History, d: Dims, w: World, ps: seq<Parcel>, a: Drawing.Action, n: World)
    requires h.Valid() && Sound(h, d, w, ps) && Happens(h, d, w, Show(a), n)
    ensures Sound(h, d, n, ps)
  {
    Drawing.ActKeepsTidy(w.client, a, n.client);
    if Drawing.Coherent(w.client) {
      Drawing.ActKeepsCoherent(w.client, a, n.client);
    }
  }

  lemma MoveKeepsSound(h: History, d: Dims, w: World, ps: seq<Parcel>, v: Move, n: World) returns (qs: seq<Parcel>)
    requires Sendable(h, d) && Sound(h, d, w, ps) && Happens(h, d, w, v, n)
    ensures Sound(h, d, n, qs)
  {
    match v
    case Serve(a, bytes) => qs := ServeKeepsSound(h, d, w, ps, a, bytes, n);
    case SendStatus(status, direction) =>
      StatusSent(h, d, w, ps, status, direction, n);
      qs := ps + [Status(status, direction)];
    case Receive =>
      ReceiveKeepsSound(h, d, w, ps, n);
      qs := ps[1..];
    case Show(a) =>
      ShowKeepsSound(h, d, w, ps, a, n);
      qs := ps;
  }

  /** A client connects: nothing is on its way and nothing queued, whatever its field and its
      screen hold. */
  ghost predicate Begins(h: History, w: World) {
    && Replica.Starts(w.replica) && w.replica.version < |h.maps| && w.wire == []
    && w.client.pending == Drawing.Nothing && w.client.queue == []
  }

  ghost predicate Course(h: History, d: Dims, ws: seq<World>, vs: seq<Move>)
    requires h.Valid()
  {
    |ws| == |vs| + 1 && Begins(h, ws[0]) && forall i :: 0 <= i < |vs| ==> Happens(h, d, ws[i], vs[i], ws[i + 1])
  }

  lemma BeginsSound(h: History, d: Dims, w: World)
    requires h.Valid() && Begins(h, w)
    ensures Sound(h, d, w, [])
  {
  }

  lemma CourseMoves(h: History, d: Dims, ws: seq<World>, vs: seq<Move>, i: nat)
    requires h.Valid() && Course(h, d, ws, vs) && i < |vs|
    ensures Happens(h, d, ws[i], vs[i], ws[i + 1])
  {
  }

  lemma CourseKeepsSound(h: History, d: Dims, ws: seq<World>, vs: seq<Move>, i: nat, j: nat, qs: seq<Parcel>)
    returns (ps: seq<Parcel>)
    requires Sendable(h, d) && Course(h, d, ws, vs) && j == i + 1 < |ws| && Sound(h, d, ws[i], qs)
    ensures Sound(h, d, ws[j], ps)
  {
    CourseMoves(h, d, ws, vs, i);
    ps := MoveKeepsSound(h, d, ws[i], qs, vs[i], ws[j]);
  }

  lemma {:induction false} CourseStaysSound(h: History, d: Dims, ws: seq<World>, vs: seq<Move>, i: nat)
    returns (ps: seq<Parcel>)
    requires Sendable(h, d) && Course(h, d, ws, vs) && i < |ws|
    ensures Sound(h, d, ws[i], ps)
  {
    if i == 0 {
      ps := [];
      BeginsSound(h, d, ws[0]);
    } else {
      var qs := CourseStaysSound(h, d, ws, vs, i - 1);
      ps := CourseKeepsSound(h, d, ws, vs, i - 1, i, qs);
    }
  }

  /** Whenever no byte is on its way and nothing is queued or owed at the client, its screen
      shows the server's field after some tick no earlier than the last one its sending thread
      has observed. */
  lemma QuietScreenShowsServerField(h: History, d: Dims, ws: seq<World>, vs: seq<Move>, i: nat)
    requires Sendable(h, d) && Course(h, d, ws, vs) && i < |ws|
    requires ws[i].replica.phase == Replica.Waiting && ws[i].wire == []
    requires ws[i].client.pending == Drawing.Nothing && ws[i].client.queue == []
    ensures ws[i].replica.last <= ws[i].replica.seen < |h.maps|
    ensures ws[i].client.screen == Picture(h.maps[ws[i].replica.seen])
  {
    var ps := CourseStaysSound(h, d, ws, vs, i);
    NothingOnTheWay(d, ws[i].wire, ps);
  }

  /** And that field can be read off the screen by the legend. */
  lemma QuietScreenReads(h: History, d: Dims, ws: seq<World>, vs: seq<Move>, i: nat)
    requires Sendable(h, d) && Course(h, d, ws, vs) && i < |ws|
    requires ws[i].replica.phase == Replica.Waiting && ws[i].wire == []
    requires ws[i].client.pending == Drawing.Nothing && ws[i].client.queue == []
    ensures ws[i].replica.last <= ws[i].replica.seen < |h.maps|
    ensures Reads(ws[i].client.screen, h.maps[ws[i].replica.seen])
  {
    QuietScreenShowsServerField(h, d, ws, vs, i);
    PictureReads(h.maps[ws[i].replica.seen]);
  }

  lemma NothingOnTheWay(d: Dims, wire: seq<Wire.Byte>, ps: seq<Parcel>)
    requires Carries(d, wire, ps)
    ensures wire == [] ==> ps == []
  {
    assert Wire.Parse([]) == Wire.Failed;
    if ps != [] {
      var m, rest := FirstArrives(d, wire, ps);
    }
  }

  /** The message loop is never stuck: whenever bytes are on their way and no request to the
      renderer is owed, the next message can be handled. */
  lemma ReceiveIsPossible(h: History, d: Dims, ws: seq<World>, vs: seq<Move>, i: nat) returns (n: World)
    requires Sendable(h, d) && Course(h, d, ws, vs) && i < |ws|
    requires ws[i].wire != [] && ws[i].client.pending == Drawing.Nothing
    ensures Happens(h, d, ws[i], Receive, n)
  {
    var w := ws[i];
    var ps := CourseStaysSound(h, d, ws, vs, i);
    var m, rest := FirstArrives(d, w.wire, ps);
    var c := FirstHandled(d, ps, m, w.client);
    n := w.(wire := rest, client := c);
  }

  lemma FirstHandled(d: Dims, ps: seq<Parcel>, m: Wire.Message, c: Drawing.Client) returns (n: Drawing.Client)
    requires ps != [] && Encodes(d, ps[0], m) && InOrder(d, ps, c.tiles.Keys == d.All()) && c.pending == Drawing.Nothing
    ensures Handles(m, c, n)
  {
    n := c;
    match ps[0]
    case Whole(tiles) =>
      FilledBySame(Grid(d, tiles), m.tiles);
      n := c.(tiles := tiles, pending := Drawing.OweRedraw);
      assert IsFilled(Dims(m.width, m.height), tiles, m.tiles);
      assert Drawing.Acts(c, Drawing.WriteField(tiles), n);
    case One(x) =>
      ClientFeed.ChangeInRange(d, x);
      n := c.(tiles := c.tiles[x.at := x.tile], pending := Drawing.OweUpdate(x.at, x.tile));
    case Status(_, _) =>
  }

  lemma FilledBySame(g: Grid, ts: seq<Wire.TileData>)
    requires g.Valid() && WireIO.Lists(g, ts) && forall c :: c in g.tiles ==> WireIO.Fits(g.tiles[c])
    ensures IsFilled(g.dims, g.tiles, ts)
  {
    forall c | g.dims.Has(c) ensures WireIO.FilledAt(g, ts, c) {
      assert WireIO.ListedAt(g, ts, c);
    }
  }

  /** All numbers of the published tiles fit their types. */
  ghost predicate NumbersFit(h: History) {
    && (forall k, c :: 0 <= k < |h.maps| && c in h.maps[k] ==> WireIO.Fits(h.maps[k][c]))
    && forall k, i :: 0 <= k < |h.logs| && 0 <= i < |h.logs[k]| ==> WireIO.Fits(h.logs[k][i].tile)
  }

  lemma {:induction false} PublishedFields(gs: seq<Runs.Game>, es: seq<Runs.Event>, i: nat)
    requires Runs.Run(gs, es) && i <= |es|
    ensures var h := Published(gs, es, i);
      |h.maps| == |h.logs| > 0 && h.logs[0] == []
      && forall k :: 0 <= k < |h.maps| ==> Grid(gs[0].s.grid.dims, h.maps[k]).Valid()
  {
    Runs.RunKeepsDims(gs, es, i);
    if i > 0 {
      PublishedFields(gs, es, i - 1);
    }
  }

  lemma LoggedInside(log: seq<Change>, tiles: map<Coord, Tile>, i: nat)
    requires i < |log|
    ensures log[i].at in Replay(log, tiles)
  {
    assert Touches(log, log[i].at);
    ReplayAt(log, tiles, tiles, log[i].at);
  }

  /** What a run publishes can be sent as long as its numbers fit. */
  lemma RunIsSendable(gs: seq<Runs.Game>, es: seq<Runs.Event>)
    requires Runs.Run(gs, es) && NumbersFit(Published(gs, es, |es|))
    ensures Sendable(Published(gs, es, |es|), gs[0].s.grid.dims)
  {
    var h, d := Published(gs, es, |es|), gs[0].s.grid.dims;
    RunPublishesHistory(gs, es, |es|);
    PublishedFields(gs, es, |es|);
    forall k | 0 <= k < |h.maps| ensures FieldFits(d, h.maps[k]) {
      assert Grid(d, h.maps[k]).Valid();
    }
    forall k | 0 <= k < |h.logs| ensures ClientFeed.InField(d, h.logs[k]) {
      LogInside(h, d, k);
    }
  }

  lemma LogInside(h: History, d: Dims, k: nat)
    requires h.Valid() && NumbersFit(h) && k < |h.logs| && h.logs[0] == [] && Grid(d, h.maps[k]).Valid()
    ensures ClientFeed.InField(d, h.logs[k])
  {
    forall i | 0 <= i < |h.logs[k]| ensures d.Has(h.logs[k][i].at) {
      assert Replay(h.logs[k - 1 + 1], h.maps[k - 1]) == h.maps[k];
      LoggedInside(h.logs[k], h.maps[k - 1], i);
    }
  }

  /** The same over any run of the game. */
  lemma QuietScreenShowsRun(gs: seq<Runs.Game>, es: seq<Runs.Event>, ws: seq<World>, vs: seq<Move>, i: nat)
    requires Runs.Run(gs, es) && NumbersFit(Published(gs, es, |es|))
    requires var h := Published(gs, es, |es|); h.Valid() ==> Course(h, gs[0].s.grid.dims, ws, vs)
    requires i < |ws| && ws[i].replica.phase == Replica.Waiting && ws[i].wire == []
    requires ws[i].client.pending == Drawing.Nothing && ws[i].client.queue == []
    ensures var h, v := Published(gs, es, |es|), ws[i].replica.seen;
      ws[i].replica.last <= v < |h.maps| && ws[i].client.screen == Picture(h.maps[v])
  {
    RunIsSendable(gs, es);
    QuietScreenShowsServerField(Published(gs, es, |es|), gs[0].s.grid.dims, ws, vs, i);
  }
}
