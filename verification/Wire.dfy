/** The wire format of libsnake/socket/socket_message.c: what the bytes of a message are and
    how a message is read back from a stream. */
module Wire {
  import opened Arithmetic

  type Byte = n: nat | n < 256

  /** A tile as it travels: the kind is the number of the enumeration constant. */
  datatype TileData = TileData(order: nat, kind: nat, player: nat)

  datatype Message =
    | MagicBytes(bytes: seq<Byte>)
    | GameFull
    | Connected
    | Map(width: nat, height: nat, tiles: seq<TileData>)
    | TileChange(row: nat, column: nat, tile: TileData)
    | PlayerState(status: nat, direction: nat)
    | Direction(direction: nat)
    | Disconnect
    | GameEnd
    | Pause
    | Unpause
    | Respawn

  const TWO_TO_32 := 0x1_0000_0000
  const TILE_SIZE := 11

  function Pow256(k: nat): nat {
    if k == 0 then 1 else 256 * Pow256(k - 1)
  }

  /** The k low bytes of n, least significant first. */
  function Little(n: nat, k: nat): (r: seq<Byte>)
    ensures |r| == k
  {
    if k == 0 then [] else [n % 256] + Little(n / 256, k - 1)
  }

  function FromLittle(bs: seq<Byte>): nat {
    if bs == [] then 0 else bs[0] + 256 * FromLittle(bs[1..])
  }

  lemma {:induction false} LittleRoundTrip(n: nat, k: nat)
    requires n < Pow256(k)
    ensures FromLittle(Little(n, k)) == n
    decreases k
  {
    if k > 0 {
      LittleRoundTrip(n / 256, k - 1);
      assert Little(n, k)[1..] == Little(n / 256, k - 1);
    }
  }

  /** Byte i has the weight 256^i: the least significant comes first. */
  lemma {:induction false} LittleAt(n: nat, k: nat, i: nat)
    requires i < k
    ensures Pow256(i) > 0 && Little(n, k)[i] == n / Pow256(i) % 256
    decreases i
  {
    if i > 0 {
      LittleAt(n / 256, k - 1, i - 1);
      DivideTwice(n, Pow256(i - 1));
    }
  }

  lemma PowerValues()
    ensures Pow256(1) == 0x100 && Pow256(2) == 0x1_0000 && Pow256(4) == TWO_TO_32
    ensures Pow256(8) == 0x1_0000_0000_0000_0000
  {
    assert Pow256(1) == 256 * Pow256(0);
    assert Pow256(2) == 256 * Pow256(1);
    assert Pow256(3) == 256 * Pow256(2);
    assert Pow256(4) == 256 * Pow256(3);
    assert Pow256(5) == 256 * Pow256(4);
    assert Pow256(6) == 256 * Pow256(5);
    assert Pow256(7) == 256 * Pow256(6);
    assert Pow256(8) == 256 * Pow256(7);
  }

  /** A byte read through a signed char and converted to an (unsigned) enumeration. */
  function EnumOf(b: Byte): nat {
    if b < 128 then b else b + 0xFFFF_FF00
  }

  function TileBytes(t: TileData): (r: seq<Byte>)
    ensures |r| == TILE_SIZE
  {
    Little(t.order, 8) + [t.kind % 256] + Little(t.player, 2)
  }

  function TilesBytes(ts: seq<TileData>): seq<Byte> {
    if ts == [] then [] else TilesBytes(ts[..|ts| - 1]) + TileBytes(ts[|ts| - 1])
  }

  /** socket_message_type_t */
  function TypeOf(m: Message): nat {
    match m
    case MagicBytes(_) => 0
    case GameFull => 1
    case Connected => 2
    case Map(_, _, _) => 3
    case TileChange(_, _, _) => 4
    case PlayerState(_, _) => 5
    case Direction(_) => 6
    case Disconnect => 7
    case GameEnd => 8
    case Pause => 9
    case Unpause => 10
    case Respawn => 11
  }

  /** What follows the type byte. */
  function Payload(m: Message): seq<Byte> {
    match m
    case MagicBytes(bytes) => bytes
    case Map(width, height, tiles) => Little(width, 4) + Little(height, 4) + TilesBytes(tiles)
    case TileChange(row, column, tile) => Little(row, 4) + Little(column, 4) + TileBytes(tile)
    case PlayerState(status, direction) => [status % 256, direction % 256]
    case Direction(direction) => [direction % 256]
    case _ => []
  }

  function Bytes(m: Message): seq<Byte> {
    [TypeOf(m) as Byte] + Payload(m)
  }

  predicate TileInRange(t: TileData) {
    t.order < 0x1_0000_0000_0000_0000 && t.kind < 128 && t.player < 0x1_0000
  }

  /** The fields fit the types of the source. */
  predicate InRange(m: Message) {
    match m
    case MagicBytes(bytes) => |bytes| == 4
    case Map(width, height, tiles) =>
      && width < TWO_TO_32 && height < TWO_TO_32 && |tiles| == width * height < TWO_TO_32
      && forall i :: 0 <= i < |tiles| ==> TileInRange(tiles[i])
    case TileChange(row, column, tile) => row < TWO_TO_32 && column < TWO_TO_32 && TileInRange(tile)
    case PlayerState(status, direction) => status < 128 && direction < 128
    case Direction(direction) => direction < 128
    case _ => true
  }

  datatype Read<T> = Failed | Got(value: T, rest: seq<Byte>)

  /** socket_read of n bytes: fails if the stream ends first. */
  function Take(bs: seq<Byte>, n: nat): Read<seq<Byte>> {
    if |bs| < n then Failed else Got(bs[..n], bs[n..])
  }

  /** socket_message_deserialize_map_tile */
  function ParseTile(bs: seq<Byte>): TileData
    requires |bs| == TILE_SIZE
  {
    TileData(FromLittle(bs[..8]), EnumOf(bs[8]), FromLittle(bs[9..]))
  }

  function ParseTiles(bs: seq<Byte>, n: nat): seq<TileData>
    requires |bs| == n * TILE_SIZE
  {
    if n == 0 then [] else
      ParseTiles(bs[..(n - 1) * TILE_SIZE], n - 1) + [ParseTile(bs[(n - 1) * TILE_SIZE..])]
  }

  /** The number of tiles of a message, computed in 32 bits. */
  function TileCount(width: nat, height: nat): nat {
    (width * height) % TWO_TO_32
  }

  function ParseBody(width: nat, height: nat, bs: seq<Byte>): Read<Message> {
    var length := TileCount(width, height);
    match Take(bs, length * TILE_SIZE)
    case Failed => Failed
    case Got(tiles, rest) => Got(Map(width, height, ParseTiles(tiles, length)), rest)
  }

  /** socket_message_deserialize_map_from_socket */
  function ParseMap(bs: seq<Byte>): Read<Message> {
    match Take(bs, 8)
    case Failed => Failed
    case Got(dimensions, rest) => ParseBody(FromLittle(dimensions[..4]), FromLittle(dimensions[4..]), rest)
  }

  function ParsePayload(kind: nat, bs: seq<Byte>): Read<Message> {
    match kind
    case 0 =>
      (match Take(bs, 4) case Failed => Failed case Got(b, rest) => Got(MagicBytes(b), rest))
    case 1 => Got(GameFull, bs)
    case 2 => Got(Connected, bs)
    case 3 => ParseMap(bs)
    case 4 =>
      (match Take(bs, 8 + TILE_SIZE)
       case Failed => Failed
       case Got(b, rest) =>
         Got(TileChange(FromLittle(b[..4]), FromLittle(b[4..8]), ParseTile(b[8..])), rest))
    case 5 =>
      (match Take(bs, 2) case Failed => Failed case Got(b, rest) => Got(PlayerState(EnumOf(b[0]), EnumOf(b[1])), rest))
    case 6 =>
      (match Take(bs, 1) case Failed => Failed case Got(b, rest) => Got(Direction(EnumOf(b[0])), rest))
    case 7 => Got(Disconnect, bs)
    case 8 => Got(GameEnd, bs)
    case 9 => Got(Pause, bs)
    case 10 => Got(Unpause, bs)
    case 11 => Got(Respawn, bs)
    case _ => Failed
  }

  /** socket_message_deserialize_from_socket */
  function Parse(bs: seq<Byte>): Read<Message> {
    match Take(bs, 1)
    case Failed => Failed
    case Got(b, rest) => ParsePayload(EnumOf(b[0]), rest)
  }

  lemma TileRoundTrip(t: TileData)
    requires TileInRange(t)
    ensures ParseTile(TileBytes(t)) == t
  {
    PowerValues();
    LittleRoundTrip(t.order, 8);
    LittleRoundTrip(t.player, 2);
    var b := TileBytes(t);
    assert b[..8] == Little(t.order, 8) && b[9..] == Little(t.player, 2);
  }

  lemma {:induction false} TilesRoundTrip(ts: seq<TileData>)
    requires forall i :: 0 <= i < |ts| ==> TileInRange(ts[i])
    ensures |TilesBytes(ts)| == |ts| * TILE_SIZE && ParseTiles(TilesBytes(ts), |ts|) == ts
    decreases |ts|
  {
    if ts != [] {
      var n := |ts| - 1;
      TilesRoundTrip(ts[..n]);
      TileRoundTrip(ts[n]);
      var b := TilesBytes(ts);
      assert b[..n * TILE_SIZE] == TilesBytes(ts[..n]) && b[n * TILE_SIZE..] == TileBytes(ts[n]);
    }
  }

  lemma TakePrefix(a: seq<Byte>, rest: seq<Byte>)
    ensures Take(a + rest, |a|) == Got(a, rest)
  {
  }

  lemma PairRoundTrip(a: nat, b: nat, tail: seq<Byte>)
    requires a < TWO_TO_32 && b < TWO_TO_32
    ensures var bs := Little(a, 4) + Little(b, 4) + tail;
      FromLittle(bs[..4]) == a && FromLittle(bs[4..8]) == b && bs[8..] == tail
  {
    PowerValues();
    LittleRoundTrip(a, 4);
    LittleRoundTrip(b, 4);
    var bs := Little(a, 4) + Little(b, 4) + tail;
    assert bs[..4] == Little(a, 4) && bs[4..8] == Little(b, 4);
  }

  lemma BodyRoundTrip(m: Message, rest: seq<Byte>)
    requires m.Map? && InRange(m)
    ensures ParseBody(m.width, m.height, TilesBytes(m.tiles) + rest) == Got(m, rest)
  {
    var body := TilesBytes(m.tiles);
    TilesRoundTrip(m.tiles);
    assert TileCount(m.width, m.height) == |m.tiles|;
    TakePrefix(body, rest);
  }

  lemma MapRoundTrip(m: Message, rest: seq<Byte>)
    requires m.Map? && InRange(m)
    ensures ParseMap(Payload(m) + rest) == Got(m, rest)
  {
    var head := Little(m.width, 4) + Little(m.height, 4);
    var body := TilesBytes(m.tiles);
    PairRoundTrip(m.width, m.height, []);
    assert head + [] == head && head[4..8] == head[4..];
    assert Payload(m) + rest == head + (body + rest);
    TakePrefix(head, body + rest);
    BodyRoundTrip(m, rest);
  }

  lemma PayloadRoundTrip(m: Message, rest: seq<Byte>)
    requires InRange(m)
    ensures ParsePayload(TypeOf(m), Payload(m) + rest) == Got(m, rest)
  {
    TakePrefix(Payload(m), rest);
    match m
    case Map(_, _, _) => MapRoundTrip(m, rest);
    case TileChange(row, column, tile) =>
      PairRoundTrip(row, column, TileBytes(tile));
      TileRoundTrip(tile);
    case _ =>
  }

  /** Reading a serialized message returns it and leaves exactly the bytes after it. */
  lemma MessageRoundTrip(m: Message, rest: seq<Byte>)
    requires InRange(m)
    ensures Parse(Bytes(m) + rest) == Got(m, rest)
  {
    var head: seq<Byte> := [TypeOf(m) as Byte];
    assert Bytes(m) + rest == head + (Payload(m) + rest);
    TakePrefix(head, Payload(m) + rest);
    PayloadRoundTrip(m, rest);
  }

  function StreamBytes(ms: seq<Message>): seq<Byte> {
    if ms == [] then [] else Bytes(ms[0]) + StreamBytes(ms[1..])
  }

  /** n messages read one after the other. */
  function ParseStream(bs: seq<Byte>, n: nat): Read<seq<Message>> {
    if n == 0 then Got([], bs)
    else
      match Parse(bs)
      case Failed => Failed
      case Got(m, rest) =>
        match ParseStream(rest, n - 1)
        case Failed => Failed
        case Got(ms, rest) => Got([m] + ms, rest)
  }

  /** A stream of messages is read back as the same messages, with nothing left over. */
  lemma {:induction false} StreamRoundTrip(ms: seq<Message>)
    requires forall i :: 0 <= i < |ms| ==> InRange(ms[i])
    ensures ParseStream(StreamBytes(ms), |ms|) == Got(ms, [])
    decreases |ms|
  {
    if ms != [] {
      MessageRoundTrip(ms[0], StreamBytes(ms[1..]));
      StreamRoundTrip(ms[1..]);
      assert [ms[0]] + ms[1..] == ms;
    }
  }

  /** The bytes from `at` on are the k bytes of n, least significant first. */
  ghost predicate Stands(bytes: seq<Byte>, at: nat, n: nat, k: nat) {
    at + k <= |bytes| && forall i :: 0 <= i < k ==> Pow256(i) > 0 && bytes[at + i] == n / Pow256(i) % 256
  }

  lemma StandsWithin(before: seq<Byte>, n: nat, k: nat, after: seq<Byte>)
    ensures Stands(before + Little(n, k) + after, |before|, n, k)
  {
    forall i | 0 <= i < k
      ensures Pow256(i) > 0 && (before + Little(n, k) + after)[|before| + i] == n / Pow256(i) % 256
    {
      LittleAt(n, k, i);
    }
  }

  /** How a tile lies in the bytes: eight bytes of order, one of kind, two of player. */
  ghost predicate TileStands(bytes: seq<Byte>, at: nat, t: TileData) {
    && at + 11 <= |bytes|
    && Stands(bytes, at, t.order, 8) && bytes[at + 8] == t.kind % 256 && Stands(bytes, at + 9, t.player, 2)
  }

  /** Sums of sequences, grouped in the ways needed below. */
  lemma Groups<T>(a: seq<T>, b: seq<T>, c: seq<T>, d: seq<T>)
    ensures a + (b + c + d) == a + b + (c + d)
    ensures a + (b + c + d) == a + b + c + d
    ensures a + (b + c + d) == a + b + c + d + []
  {
  }

  lemma TileWithin(before: seq<Byte>, t: TileData, after: seq<Byte>)
    ensures TileStands(before + TileBytes(t) + after, |before|, t)
  {
    var order, kind, player := Little(t.order, 8), [t.kind % 256], Little(t.player, 2);
    StandsWithin(before, t.order, 8, kind + player + after);
    StandsWithin(before + order + kind, t.player, 2, after);
    GroupsOfTile(before, order, kind, player, after);
    KindWithin(before + order, t.kind % 256, player + after);
  }

  lemma GroupsOfTile<T>(a: seq<T>, b: seq<T>, c: seq<T>, d: seq<T>, e: seq<T>)
    ensures a + (b + c + d) + e == a + b + (c + d + e)
    ensures a + (b + c + d) + e == a + b + c + d + e
    ensures a + (b + c + d) + e == a + b + c + (d + e)
  {
  }

  lemma KindWithin(before: seq<Byte>, kind: Byte, after: seq<Byte>)
    ensures (before + [kind] + after)[|before|] == kind
  {
  }

  /** A tile change: type 4, row and column of four bytes each, the tile. */
  lemma ChangeLayout(row: nat, column: nat, tile: TileData)
    ensures var bytes := Bytes(TileChange(row, column, tile));
      && |bytes| == 20 && bytes[0] == 4
      && Stands(bytes, 1, row, 4) && Stands(bytes, 5, column, 4) && TileStands(bytes, 9, tile)
  {
    var first, second, third := Little(row, 4), Little(column, 4), TileBytes(tile);
    Groups([4], first, second, third);
    StandsWithin([4], row, 4, second + third);
    StandsWithin([4] + first, column, 4, third);
    TileWithin([4] + first + second, tile, []);
  }

  lemma {:induction false} TilesSplit(ts: seq<TileData>, j: nat)
    requires j < |ts|
    ensures exists after :: TilesBytes(ts) == TilesBytes(ts[..j]) + TileBytes(ts[j]) + after
    ensures |TilesBytes(ts)| == 11 * |ts| && |TilesBytes(ts[..j])| == 11 * j
    decreases |ts|
  {
    var n := |ts| - 1;
    if n > 0 {
      TilesSplit(ts[..n], if j < n then j else 0);
    }
    if j < n {
      assert ts[..n][..j] == ts[..j] && ts[..n][j] == ts[j];
      var after :| TilesBytes(ts[..n]) == TilesBytes(ts[..j]) + TileBytes(ts[j]) + after;
      assert TilesBytes(ts) == TilesBytes(ts[..j]) + TileBytes(ts[j]) + (after + TileBytes(ts[n]));
    } else {
      assert TilesBytes(ts) == TilesBytes(ts[..j]) + TileBytes(ts[j]) + [];
    }
  }

  lemma GroupsInside<T>(a: seq<T>, b: seq<T>, c: seq<T>, d: seq<T>)
    ensures a + (b + c + d) == a + b + c + d
  {
  }

  /** Within the bytes of a field, a tile lies behind the header and the tiles before it. */
  lemma TileInMap(header: seq<Byte>, tiles: seq<TileData>, j: nat)
    requires j < |tiles|
    ensures |TilesBytes(tiles)| == 11 * |tiles|
    ensures TileStands(header + TilesBytes(tiles), |header| + 11 * j, tiles[j])
  {
    TilesSplit(tiles, j);
    var after :| TilesBytes(tiles) == TilesBytes(tiles[..j]) + TileBytes(tiles[j]) + after;
    GroupsInside(header, TilesBytes(tiles[..j]), TileBytes(tiles[j]), after);
    TileWithin(header + TilesBytes(tiles[..j]), tiles[j], after);
  }

  /** A field: type 3, width and height of four bytes each, the tiles one after the other. */
  lemma MapLayout(width: nat, height: nat, tiles: seq<TileData>, j: nat)
    requires j < |tiles|
    ensures var bytes := Bytes(Map(width, height, tiles));
      && |bytes| == 9 + 11 * |tiles| && bytes[0] == 3
      && Stands(bytes, 1, width, 4) && Stands(bytes, 5, height, 4) && TileStands(bytes, 9 + 11 * j, tiles[j])
  {
    var first, second, rest := Little(width, 4), Little(height, 4), TilesBytes(tiles);
    Groups([3], first, second, rest);
    StandsWithin([3], width, 4, second + rest);
    StandsWithin([3] + first, height, 4, rest);
    TileInMap([3] + first + second, tiles, j);
  }

  /** The other messages: one byte each, with one or two bytes or the magic bytes behind it. */
  lemma ShortLayouts(bytes: seq<Byte>, status: nat, direction: nat)
    requires status < 256 && direction < 256
    ensures Bytes(MagicBytes(bytes)) == [0] + bytes
    ensures Bytes(GameFull) == [1] && Bytes(Connected) == [2]
    ensures Bytes(PlayerState(status, direction)) == [5, status, direction]
    ensures Bytes(Direction(direction)) == [6, direction]
    ensures Bytes(Disconnect) == [7] && Bytes(GameEnd) == [8]
    ensures Bytes(Pause) == [9] && Bytes(Unpause) == [10] && Bytes(Respawn) == [11]
  {
  }
}
