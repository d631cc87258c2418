/** From the server's field to a client's screen: the sending thread, the bytes on their way, the
    message loop and the drawing thread together (server/client_connection.c,
    libsnake/socket/socket_message.c, client/socket_client.c, client/renderer/renderer.c). */
module Parcels {
  import opened Torus
  import opened Field
  import opened Changes
  import Wire
  import WireIO
  import ClientFeed

  /** What a message on its way will do to the client's field. */
  datatype Parcel = Whole(tiles: map<Coord, Tile>) | One(c: Change) | Status(status: nat, direction: nat)

  ghost predicate Encodes(d: Dims, p: Parcel, m: Wire.Message) {
    match p
    case Whole(tiles) =>
      && Grid(d, tiles).Valid() && (forall c :: c in tiles ==> WireIO.Fits(tiles[c]))
      && m.Map? && m.width == d.width && m.height == d.height && WireIO.Lists(Grid(d, tiles), m.tiles)
    case One(c) => d.Legal() && d.Has(c.at) && WireIO.Fits(c.tile) && m == ClientFeed.ToMessage(c)
    case Status(status, direction) => m == Wire.PlayerState(status, direction) && Wire.InRange(m)
  }

  lemma EncodedArrives(d: Dims, p: Parcel, m: Wire.Message, rest: seq<Wire.Byte>)
    requires Encodes(d, p, m)
    ensures Wire.Parse(Wire.Bytes(m) + rest) == Wire.Got(m, rest)
  {
    match p
    case Whole(tiles) => WireIO.FieldMessageArrives(Grid(d, tiles), m, rest);
    case One(c) =>
      ClientFeed.ChangeInRange(d, c);
      Wire.MessageRoundTrip(m, rest);
    case Status(_, _) => Wire.MessageRoundTrip(m, rest);
  }

  /** The bytes begin with a message with this effect. */
  ghost predicate Leads(d: Dims, p: Parcel, wire: seq<Wire.Byte>, rest: seq<Wire.Byte>) {
    exists m :: Encodes(d, p, m) && wire == Wire.Bytes(m) + rest
  }

  lemma Reassociate<T>(a: seq<T>, b: seq<T>, c: seq<T>)
    ensures a + b + c == a + (b + c)
  {
  }

  lemma LeadsMore(d: Dims, p: Parcel, wire: seq<Wire.Byte>, rest: seq<Wire.Byte>, more: seq<Wire.Byte>)
    requires Leads(d, p, wire, rest)
    ensures Leads(d, p, wire + more, rest + more)
  {
    var m :| Encodes(d, p, m) && wire == Wire.Bytes(m) + rest;
    Reassociate(Wire.Bytes(m), rest, more);
  }

  /** The bytes are those of messages with these effects, in order. */
  ghost predicate Carries(d: Dims, wire: seq<Wire.Byte>, ps: seq<Parcel>)
    decreases |ps|
  {
    if ps == [] then wire == [] else exists rest :: Leads(d, ps[0], wire, rest) && Carries(d, rest, ps[1..])
  }

  lemma SumOf<T>(a: seq<T>, b: seq<T>)
    ensures a == [] ==> a + b == b
    ensures a != [] ==> (a + b)[0] == a[0] && (a + b)[1..] == a[1..] + b
  {
  }

  lemma CarriesFirst(d: Dims, wire: seq<Wire.Byte>, p: Parcel, ps: seq<Parcel>, rest: seq<Wire.Byte>)
    requires ps != [] && ps[0] == p && Leads(d, p, wire, rest) && Carries(d, rest, ps[1..])
    ensures Carries(d, wire, ps)
  {
  }

  lemma {:induction false} CarriesMore(
      d: Dims, w1: seq<Wire.Byte>, ps: seq<Parcel>, w2: seq<Wire.Byte>, qs: seq<Parcel>)
    requires Carries(d, w1, ps) && Carries(d, w2, qs)
    ensures Carries(d, w1 + w2, ps + qs)
    decreases |ps|
  {
    SumOf(ps, qs);
    if ps == [] {
      SumOf(w1, w2);
    } else {
      var rest :| Leads(d, ps[0], w1, rest) && Carries(d, rest, ps[1..]);
      CarriesMore(d, rest, ps[1..], w2, qs);
      LeadsMore(d, ps[0], w1, rest, w2);
      CarriesFirst(d, w1 + w2, ps[0], ps + qs, rest + w2);
    }
  }

  lemma CarriesOne(d: Dims, p: Parcel, m: Wire.Message)
    requires Encodes(d, p, m)
    ensures Carries(d, Wire.Bytes(m), [p])
  {
    assert Wire.Bytes(m) == Wire.Bytes(m) + [] && [p][1..] == [] && Carries(d, [], []);
    assert Leads(d, p, Wire.Bytes(m), []);
  }

  function Ones(log: seq<Change>): seq<Parcel> {
    seq(|log|, i requires 0 <= i < |log| => One(log[i]))
  }

  lemma FirstOne(log: seq<Change>)
    requires log != []
    ensures Ones(log)[0] == One(log[0]) && Ones(log)[1..] == Ones(log[1..])
  {
  }

  lemma EncodesFirst(d: Dims, log: seq<Change>)
    requires d.Legal() && ClientFeed.InField(d, log) && log != []
    ensures Encodes(d, One(log[0]), ClientFeed.ToMessage(log[0]))
  {
  }

  /** The bytes of a log begin with those of its first entry. */
  lemma FirstOfLog(d: Dims, log: seq<Change>)
    requires d.Legal() && ClientFeed.InField(d, log) && log != []
    ensures Ones(log)[0] == One(log[0]) && Ones(log)[1..] == Ones(log[1..])
    ensures Leads(d, One(log[0]), Wire.StreamBytes(ClientFeed.ToMessages(log)),
      Wire.StreamBytes(ClientFeed.ToMessages(log[1..])))
  {
    ClientFeed.FirstMessage(log);
    FirstOne(log);
    EncodesFirst(d, log);
    FirstLeads(d, One(log[0]), ClientFeed.ToMessages(log));
  }

  lemma FirstLeads(d: Dims, p: Parcel, ms: seq<Wire.Message>)
    requires ms != [] && Encodes(d, p, ms[0])
    ensures Leads(d, p, Wire.StreamBytes(ms), Wire.StreamBytes(ms[1..]))
  {
  }

  lemma {:induction false} LogCarries(d: Dims, log: seq<Change>)
    requires d.Legal() && ClientFeed.InField(d, log)
    ensures Carries(d, Wire.StreamBytes(ClientFeed.ToMessages(log)), Ones(log))
    decreases |log|
  {
    if log != [] {
      LogCarries(d, log[1..]);
      FirstOfLog(d, log);
      CarriesFirst(d, Wire.StreamBytes(ClientFeed.ToMessages(log)), One(log[0]), Ones(log),
        Wire.StreamBytes(ClientFeed.ToMessages(log[1..])));
    }
  }

  /** The client's field after one message, and after all messages on their way. */
  function Effect(p: Parcel, tiles: map<Coord, Tile>): map<Coord, Tile> {
    match p
    case Whole(t) => t
    case One(c) => tiles[c.at := c.tile]
    case Status(_, _) => tiles
  }

  function Deliver(ps: seq<Parcel>, tiles: map<Coord, Tile>): map<Coord, Tile> {
    if ps == [] then tiles else Deliver(ps[1..], Effect(ps[0], tiles))
  }

  lemma {:induction false} DeliverMore(ps: seq<Parcel>, qs: seq<Parcel>, tiles: map<Coord, Tile>)
    ensures Deliver(ps + qs, tiles) == Deliver(qs, Deliver(ps, tiles))
    decreases |ps|
  {
    if ps == [] {
      assert ps + qs == qs;
    } else {
      DeliverMore(ps[1..], qs, Effect(ps[0], tiles));
      assert (ps + qs)[1..] == ps[1..] + qs;
    }
  }

  /** Delivering a log is replaying it. */
  lemma {:induction false} DeliverLog(log: seq<Change>, tiles: map<Coord, Tile>)
    ensures Deliver(Ones(log), tiles) == Replay(log, tiles)
    decreases |log|
  {
    if log != [] {
      var n := |log| - 1;
      DeliverLog(log[..n], tiles);
      DeliverMore(Ones(log[..n]), [One(log[n])], tiles);
      assert Ones(log) == Ones(log[..n]) + [One(log[n])];
      DeliverSingle(One(log[n]), Deliver(Ones(log[..n]), tiles));
    }
  }

  lemma DeliverSingle(p: Parcel, tiles: map<Coord, Tile>)
    ensures Deliver([p], tiles) == Effect(p, tiles)
  {
    assert [p][1..] == [];
  }

  predicate HasWhole(ps: seq<Parcel>) {
    exists i :: 0 <= i < |ps| && ps[i].Whole?
  }

  lemma HasWholeMore(ps: seq<Parcel>, qs: seq<Parcel>)
    ensures HasWhole(ps) || HasWhole(qs) ==> HasWhole(ps + qs)
  {
    if i :| 0 <= i < |ps| && ps[i].Whole? {
      assert (ps + qs)[i].Whole?;
    } else if i :| 0 <= i < |qs| && qs[i].Whole? {
      assert (ps + qs)[|ps| + i].Whole?;
    }
  }

  lemma HasWholeRest(ps: seq<Parcel>)
    requires HasWhole(ps) && !ps[0].Whole?
    ensures HasWhole(ps[1..])
  {
    var i :| 0 <= i < |ps| && ps[i].Whole?;
    assert ps[1..][i - 1].Whole?;
  }

  /** A tile is changed only once a whole field has come. */
  ghost predicate InOrder(d: Dims, ps: seq<Parcel>, ready: bool)
    decreases |ps|
  {
    ps == [] ||
    match ps[0]
    case Whole(tiles) => tiles.Keys == d.All() && InOrder(d, ps[1..], true)
    case One(c) => ready && d.Has(c.at) && InOrder(d, ps[1..], ready)
    case Status(_, _) => InOrder(d, ps[1..], ready)
  }

  lemma {:induction false} InOrderMore(d: Dims, ps: seq<Parcel>, qs: seq<Parcel>, ready: bool)
    requires InOrder(d, ps, ready) && InOrder(d, qs, ready || HasWhole(ps))
    ensures InOrder(d, ps + qs, ready)
    decreases |ps|
  {
    if ps == [] {
      assert ps + qs == qs;
    } else {
      assert (ps + qs)[1..] == ps[1..] + qs;
      var next := ready || ps[0].Whole?;
      if !next && HasWhole(ps) {
        HasWholeRest(ps);
      }
      if next {
        InOrderReady(d, qs, ready || HasWhole(ps));
      }
      InOrderMore(d, ps[1..], qs, next);
    }
  }

  lemma {:induction false} InOrderReady(d: Dims, ps: seq<Parcel>, ready: bool)
    requires InOrder(d, ps, ready)
    ensures InOrder(d, ps, true)
    decreases |ps|
  {
    if ps != [] {
      match ps[0]
      case Whole(_) =>
      case One(_) =>
      case Status(_, _) => InOrderReady(d, ps[1..], ready);
    }
  }

  lemma {:induction false} OnesInOrder(d: Dims, log: seq<Change>)
    requires ClientFeed.InField(d, log)
    ensures InOrder(d, Ones(log), true)
    decreases |log|
  {
    if log != [] {
      OnesInOrder(d, log[1..]);
      assert Ones(log)[1..] == Ones(log[1..]);
    }
  }
}
