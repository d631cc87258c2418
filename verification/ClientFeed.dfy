/** The log of a tick as it reaches the client's field (server/client_connection.c,
    client_connection_send_changelog, and the message loop of client/socket_client.c). */
module ClientFeed {
  import opened Torus
  import opened Changes
  import opened GameMapClass
  import opened Wire
  import opened WireIO

  /** socket_message_init_tile_change */
  function ToMessage(c: Change): Message {
    TileChange(c.at.row, c.at.col, ToData(c.tile))
  }

  function ToMessages(log: seq<Change>): seq<Message> {
    seq(|log|, i requires 0 <= i < |log| => ToMessage(log[i]))
  }

  lemma FirstMessage(log: seq<Change>)
    requires log != []
    ensures var ms := ToMessages(log); |ms| == |log| && ms[0] == ToMessage(log[0]) && ms[1..] == ToMessages(log[1..])
  {
  }

  predicate InField(m: Dims, log: seq<Change>) {
    forall i :: 0 <= i < |log| ==> m.Has(log[i].at) && Fits(log[i].tile)
  }

  lemma ChangeInRange(m: Dims, c: Change)
    requires m.Legal() && m.Has(c.at) && Fits(c.tile)
    ensures InRange(ToMessage(c)) && FromData(ToData(c.tile)) == c.tile
  {
  }

  /** The messages of a log are read back one by one from the bytes sent. */
  lemma LogArrives(m: Dims, log: seq<Change>)
    requires m.Legal() && InField(m, log)
    ensures ParseStream(StreamBytes(ToMessages(log)), |log|) == Got(ToMessages(log), [])
  {
    var ms := ToMessages(log);
    forall i | 0 <= i < |ms| ensures InRange(ms[i]) {
      ChangeInRange(m, log[i]);
    }
    StreamRoundTrip(ms);
  }

  /** The TILE_CHANGE case of the message loop. */
  method ApplyMessage(field: GameMap, m: Message, ghost c: Change)
    requires field.Valid() && field.dims.Has(c.at) && Fits(c.tile) && m == ToMessage(c)
    modifies field.tiles
    ensures field.View().tiles == old(field.View()).tiles[c.at := c.tile]
  {
    ChangeInRange(field.dims, c);
    SetTileState(field, Coord(m.row, m.column), FromData(m.tile));
  }

  /** The message loop over the messages of a log: afterwards the field is the old one with the
      log replayed over it. */
  method ApplyMessages(field: GameMap, ms: seq<Message>, ghost log: seq<Change>)
    requires field.Valid() && InField(field.dims, log) && ms == ToMessages(log)
    modifies field.tiles
    ensures field.View().tiles == Replay(log, old(field.View()).tiles)
  {
    ghost var start := field.View().tiles;
    for i := 0 to |ms|
      invariant field.View().tiles == Replay(log[..i], start)
    {
      ghost var now := field.View().tiles;
      ApplyMessage(field, ms[i], log[i]);
      ReplayPush(log[..i], log[i], start);
      assert log[..i + 1] == log[..i] + [log[i]];
    }
    assert log[..|log|] == log;
  }
}
