/** Serialization into a buffer, deserialization from a socket and the conversion between
    fields and messages, as done in place by libsnake/socket/socket_message.c. */
module WireIO {
  import opened Arithmetic
  import opened Torus
  import opened Field
  import opened GameMapClass
  import opened Wire

  /** What the initializers of socket_message.c guarantee about array lengths. */
  predicate Shaped(m: Message) {
    match m
    case MagicBytes(bytes) => |bytes| == 4
    case Map(width, height, tiles) => |tiles| == TileCount(width, height)
    case _ => true
  }

  /** socket_message_calculate_data_buffer_size */
  function DataBufferSize(m: Message): nat {
    match m
    case MagicBytes(_) => 4
    case Map(width, height, _) => 8 + TileCount(width, height) * TILE_SIZE
    case TileChange(_, _, _) => 8 + TILE_SIZE
    case PlayerState(_, _) => 2
    case Direction(_) => 1
    case _ => 0
  }

  lemma {:induction false} TilesBytesLength(ts: seq<TileData>)
    ensures |TilesBytes(ts)| == |ts| * TILE_SIZE
  {
    if ts != [] {
      TilesBytesLength(ts[..|ts| - 1]);
    }
  }

  /** The computed size is the number of bytes written. */
  lemma SizeIsExact(m: Message)
    requires Shaped(m)
    ensures |Bytes(m)| == 1 + DataBufferSize(m)
  {
    if m.Map? {
      TilesBytesLength(m.tiles);
    }
  }

  lemma MapPayload(before: seq<Byte>, width: nat, height: nat, tiles: seq<TileData>)
    ensures before + (Little(width, 4) + Little(height, 4)) + TilesBytes(tiles) ==
      before + Payload(Map(width, height, tiles))
  {
    Regroup(before, Little(width, 4) + Little(height, 4), TilesBytes(tiles));
  }

  lemma Regroup<T>(a: seq<T>, b: seq<T>, c: seq<T>)
    ensures a + b + c == a + (b + c)
  {
  }

  /** A buffer with the pointer that moves through it. */
  class Writer {
    const buffer: array<Byte>
    var pos: nat

    ghost predicate Valid()
      reads this
    {
      pos <= buffer.Length
    }

    ghost function Written(): seq<Byte>
      requires Valid()
      reads this, buffer
    {
      buffer[..pos]
    }

    constructor (length: nat)
      ensures Valid() && fresh(buffer) && buffer.Length == length && Written() == []
    {
      buffer := new Byte[length](_ => 0x69);
      pos := 0;
    }

    method Put(b: Byte)
      requires Valid() && pos < buffer.Length
      modifies this, buffer
      ensures Valid() && pos == old(pos) + 1 && Written() == old(Written()) + [b]
    {
      buffer[pos] := b;
      pos := pos + 1;
    }

    /** htole and memcpy of an integer of k bytes */
    method PutLittle(n: nat, k: nat)
      requires Valid() && pos + k <= buffer.Length
      modifies this, buffer
      ensures Valid() && pos == old(pos) + k && Written() == old(Written()) + Little(n, k)
    {
      var rest := n;
      for i := 0 to k
        invariant Valid() && pos == old(pos) + i
        invariant Written() + Little(rest, k - i) == old(Written()) + Little(n, k)
      {
        Put(rest % 256);
        rest := rest / 256;
      }
    }

    method PutAll(bytes: seq<Byte>)
      requires Valid() && pos + |bytes| <= buffer.Length
      modifies this, buffer
      ensures Valid() && pos == old(pos) + |bytes| && Written() == old(Written()) + bytes
    {
      for i := 0 to |bytes|
        invariant Valid() && pos == old(pos) + i && Written() == old(Written()) + bytes[..i]
      {
        Put(bytes[i]);
      }
    }

    /** socket_message_serialize_map_tile */
    method PutTile(t: TileData)
      requires Valid() && pos + TILE_SIZE <= buffer.Length
      modifies this, buffer
      ensures Valid() && pos == old(pos) + TILE_SIZE && Written() == old(Written()) + TileBytes(t)
    {
      PutLittle(t.order, 8);
      Put(t.kind % 256);
      PutLittle(t.player, 2);
    }

    method PutTiles(ts: seq<TileData>)
      requires Valid() && pos + |ts| * TILE_SIZE <= buffer.Length
      modifies this, buffer
      ensures Valid() && pos == old(pos) + |ts| * TILE_SIZE && Written() == old(Written()) + TilesBytes(ts)
    {
      for i := 0 to |ts|
        invariant Valid() && pos == old(pos) + i * TILE_SIZE
        invariant Written() == old(Written()) + TilesBytes(ts[..i])
      {
        PutTile(ts[i]);
        assert ts[..i + 1][..i] == ts[..i];
        }
      assert ts[..|ts|] == ts;
    }

    /** The bodies of socket_message_serialize_magic_bytes to socket_message_serialize_direction */
    method PutPayload(m: Message)
      requires Shaped(m) && Valid() && pos + DataBufferSize(m) <= buffer.Length
      modifies this, buffer
      ensures Valid() && pos == old(pos) + DataBufferSize(m) && Written() == old(Written()) + Payload(m)
    {
      match m {
        case MagicBytes(bytes) => PutAll(bytes);
        case Map(width, height, tiles) => PutMap(width, height, tiles);
        case TileChange(row, column, tile) => PutChange(row, column, tile);
        case PlayerState(status, direction) => PutState(status, direction);
        case Direction(direction) => Put(direction % 256);
        case _ =>
      }
    }

    method PutMap(width: nat, height: nat, tiles: seq<TileData>)
      requires Valid() && pos + 8 + |tiles| * TILE_SIZE <= buffer.Length
      modifies this, buffer
      ensures Valid() && pos == old(pos) + 8 + |tiles| * TILE_SIZE
      ensures Written() == old(Written()) + Payload(Map(width, height, tiles))
    {
      ghost var before := Written();
      PutPair(width, height);
      PutTiles(tiles);
      MapPayload(before, width, height, tiles);
    }

    method PutChange(row: nat, column: nat, tile: TileData)
      requires Valid() && pos + 8 + TILE_SIZE <= buffer.Length
      modifies this, buffer
      ensures Valid() && pos == old(pos) + 8 + TILE_SIZE
      ensures Written() == old(Written()) + Payload(TileChange(row, column, tile))
    {
      ghost var before, head := Written(), Little(row, 4) + Little(column, 4);
      PutPair(row, column);
      PutTile(tile);
      assert Written() == before + (head + TileBytes(tile));
    }

    method PutState(status: nat, direction: nat)
      requires Valid() && pos + 2 <= buffer.Length
      modifies this, buffer
      ensures Valid() && pos == old(pos) + 2 && Written() == old(Written()) + Payload(PlayerState(status, direction))
    {
      Put(status % 256);
      Put(direction % 256);
    }

    method PutPair(a: nat, b: nat)
      requires Valid() && pos + 8 <= buffer.Length
      modifies this, buffer
      ensures Valid() && pos == old(pos) + 8 && Written() == old(Written()) + (Little(a, 4) + Little(b, 4))
    {
      PutLittle(a, 4);
      PutLittle(b, 4);
    }
  }

  lemma TypeThenPayload(m: Message)
    ensures [] + [TypeOf(m)] + Payload(m) == Bytes(m)
  {
  }

  /** socket_message_serialize */
  method Serialize(m: Message) returns (buffer: array<Byte>)
    requires Shaped(m)
    ensures buffer[..] == Bytes(m)
  {
    var w := new Writer(1 + DataBufferSize(m));
    w.Put(TypeOf(m));
    w.PutPayload(m);
    TypeThenPayload(m);
    buffer := w.buffer;
    assert buffer[..] == buffer[..w.pos];
  }

  /** The bytes read from a connected socket, with the position reached in them. */
  class Socket {
    const stream: seq<Byte>
    var pos: nat

    ghost predicate Valid()
      reads this
    {
      pos <= |stream|
    }

    ghost function Ahead(): seq<Byte>
      requires Valid()
      reads this
    {
      stream[pos..]
    }

    constructor (stream: seq<Byte>)
      ensures Valid() && Ahead() == stream
    {
      this.stream, pos := stream, 0;
    }

    /** socket_read */
    method Read(n: nat) returns (ok: bool, bytes: seq<Byte>)
      requires Valid()
      modifies this
      ensures Valid() && Take(old(Ahead()), n) == if ok then Got(bytes, Ahead()) else Failed
    {
      if pos + n > |stream| {
        return false, [];
      }
      ok, bytes := true, stream[pos..pos + n];
      pos := pos + n;
      assert Ahead() == old(Ahead())[n..] && bytes == old(Ahead())[..n];
    }

    /** The loop of socket_message_deserialize_map_from_socket over the tiles of its buffer. */
    method ReadTiles(bytes: seq<Byte>, length: nat) returns (tiles: array<TileData>)
      requires |bytes| == length * TILE_SIZE
      ensures tiles[..] == ParseTiles(bytes, length)
    {
      tiles := new TileData[length](_ => TileData(0, 0, 0));
      var current := 0;
      for i := 0 to length
        invariant current == i * TILE_SIZE
        invariant tiles[..i] == ParseTiles(bytes[..current], i)
      {
        tiles[i] := ParseTile(bytes[current..current + TILE_SIZE]);
        current := current + TILE_SIZE;
        assert bytes[..current][..i * TILE_SIZE] == bytes[..i * TILE_SIZE];
        assert bytes[..current][i * TILE_SIZE..] == bytes[i * TILE_SIZE..current];
      }
      assert bytes[..current] == bytes;
    }

    method ReadMap() returns (ok: bool, m: Message)
      requires Valid()
      modifies this
      ensures Valid() && ParseMap(old(Ahead())) == if ok then Got(m, Ahead()) else Failed
    {
      m := GameFull;
      var bytes;
      ok, bytes := Read(8);
      if ok {
        var width, height := FromLittle(bytes[..4]), FromLittle(bytes[4..]);
        var length := TileCount(width, height);
        ok, bytes := Read(length * TILE_SIZE);
        if ok {
          var tiles := ReadTiles(bytes, length);
          m := Map(width, height, tiles[..]);
        }
      }
    }

    /** socket_message_deserialize_from_socket */
    method Deserialize() returns (ok: bool, m: Message)
      requires Valid()
      modifies this
      ensures Valid() && Parse(old(Ahead())) == if ok then Got(m, Ahead()) else Failed
    {
      m := GameFull;
      var bytes;
      ok, bytes := Read(1);
      if !ok {
        return;
      }
      var kind := EnumOf(bytes[0]);
      if kind > 11 {
        return false, m;
      }
      if kind == 3 {
        ok, m := ReadMap();
      } else {
        ok, m := ReadSmall(kind);
      }
    }

    /** The messages of fixed length. */
    method ReadSmall(kind: nat) returns (ok: bool, m: Message)
      requires Valid() && kind <= 11 && kind != 3
      modifies this
      ensures Valid() && ParsePayload(kind, old(Ahead())) == if ok then Got(m, Ahead()) else Failed
    {
      ok, m := true, GameFull;
      var b;
      match kind {
        case 0 => ok, b := Read(4); if ok { m := MagicBytes(b); }
        case 1 =>
        case 2 => m := Connected;
        case 4 =>
          ok, b := Read(8 + TILE_SIZE);
          if ok { m := TileChange(FromLittle(b[..4]), FromLittle(b[4..8]), ParseTile(b[8..])); }
        case 5 => ok, b := Read(2); if ok { m := PlayerState(EnumOf(b[0]), EnumOf(b[1])); }
        case 6 => ok, b := Read(1); if ok { m := Direction(EnumOf(b[0])); }
        case 7 => m := Disconnect;
        case 8 => m := GameEnd;
        case 9 => m := Pause;
        case 10 => m := Unpause;
        case _ => m := Respawn;
      }
    }
  }

  /** map_tile_type_t */
  function KindNumber(kind: TileKind): nat {
    match kind
    case Empty => 0
    case Body => 1
    case Fruit => 2
    case Wall => 3
    case Dead => 4
  }

  function KindOf(n: nat): TileKind {
    match n
    case 0 => Empty
    case 1 => Body
    case 2 => Fruit
    case 3 => Wall
    case _ => Dead
  }

  /** The numbers of map_tile_type_t. */
  lemma KindNumbers(t: Tile)
    ensures ToData(t).order == t.order && ToData(t).player == t.player
    ensures ToData(t).kind == 0 <==> t.kind == Empty
    ensures ToData(t).kind == 1 <==> t.kind == Body
    ensures ToData(t).kind == 2 <==> t.kind == Fruit
    ensures ToData(t).kind == 3 <==> t.kind == Wall
    ensures ToData(t).kind == 4 <==> t.kind == Dead
  {
  }

  function ToData(t: Tile): TileData {
    TileData(t.order, KindNumber(t.kind), t.player)
  }

  function FromData(d: TileData): Tile {
    Tile(d.order, KindOf(d.kind), d.player)
  }

  /** ts lists the tiles of the field in row-major order. */
  ghost predicate Lists(g: Grid, ts: seq<TileData>)
    requires g.Valid()
  {
    |ts| == Size(g.dims) && forall c :: c in g.tiles ==> ListedAt(g, ts, c)
  }

  ghost predicate ListedAt(g: Grid, ts: seq<TileData>, c: Coord)
    requires c in g.tiles
  {
    Index(g.dims, c) < |ts| && ts[Index(g.dims, c)] == ToData(g.tiles[c])
  }

  predicate Before(c: Coord, i: nat, j: nat) {
    c.row < i || (c.row == i && c.col < j)
  }

  /** The tiles before (i, j) in row-major order have been listed. */
  ghost predicate Listed(g: Grid, ts: seq<TileData>, i: nat, j: nat)
    requires g.Valid()
  {
    |ts| == Index(g.dims, Coord(i, j)) && forall c :: c in g.tiles && Before(c, i, j) ==> ListedAt(g, ts, c)
  }

  lemma RowEnds(m: Dims, i: nat)
    ensures Index(m, Coord(i, m.width)) == Index(m, Coord(i + 1, 0))
    ensures Index(m, Coord(m.height, 0)) == Size(m) && Index(m, Coord(0, 0)) == 0
  {
    TimesNext(m.width, i);
  }

  lemma ListNext(g: Grid, ts: seq<TileData>, i: nat, j: nat)
    requires g.Valid() && g.dims.Has(Coord(i, j)) && Listed(g, ts, i, j)
    ensures Listed(g, ts + [ToData(g.tiles[Coord(i, j)])], i, j + 1)
  {
    var ts' := ts + [ToData(g.tiles[Coord(i, j)])];
    forall c | c in g.tiles && Before(c, i, j + 1) ensures ListedAt(g, ts', c) {
      if c != Coord(i, j) {
        assert ListedAt(g, ts, c);
      }
    }
  }

  /** socket_message_init_map */
  method InitMap(field: GameMap) returns (m: Message)
    requires field.Valid()
    ensures m.Map? && m.width == field.dims.width && m.height == field.dims.height
    ensures Lists(field.View(), m.tiles)
  {
    var tiles: seq<TileData> := [];
    var height, width := field.dims.height, field.dims.width;
    RowEnds(field.dims, 0);
    for i := 0 to height
      invariant Listed(field.View(), tiles, i, 0)
    {
      for j := 0 to width
        invariant Listed(field.View(), tiles, i, j)
      {
        ListNext(field.View(), tiles, i, j);
        tiles := tiles + [ToData(field.TileAt(Coord(i, j)))];
      }
      RowEnds(field.dims, i);
    }
    RowEnds(field.dims, height);
    m := Map(width, height, tiles);
  }

  /** map_set_tile_state */
  method SetTileState(field: GameMap, c: Coord, tile: Tile)
    requires c.row < field.tiles.Length0 && c.col < field.tiles.Length1
    modifies field.tiles
    ensures forall i, j :: 0 <= i < field.tiles.Length0 && 0 <= j < field.tiles.Length1 ==>
      field.tiles[i, j] == if i == c.row && j == c.col then tile else old(field.tiles[i, j])
    ensures field.Valid() && field.dims.Has(c) ==>
      field.View() == old(field.View()).(tiles := old(field.View()).tiles[c := tile])
  {
    field.tiles[c.row, c.col] := tile;
    if field.Valid() && field.dims.Has(c) {
      assert field.View().tiles == old(field.View()).tiles[c := tile];
    }
  }

  /** socket_message_deserialize_to_map: nothing happens for another type of message. map_init
      first empties the tiles, which are all overwritten. */
  method DeserializeToMap(m: Message, field: GameMap)
    requires field.tiles.Length0 == MAX_MAP_HEIGHT && field.tiles.Length1 == MAX_MAP_WIDTH
    requires m.Map? ==>
      m.width <= MAX_MAP_WIDTH && m.height <= MAX_MAP_HEIGHT && |m.tiles| == Size(Dims(m.width, m.height))
    modifies field, field.tiles
    ensures m.Map? ==> field.dims == Dims(m.width, m.height) && Arrived(field, m.tiles, m.height, 0)
    ensures m.Map? && field.dims.Legal() ==>
      field.Valid() && forall c :: field.dims.Has(c) ==> FilledAt(field.View(), m.tiles, c)
    ensures m.Map? ==> OutsideKept(field)
    ensures !m.Map? ==> unchanged(field) && unchanged(field.tiles)
  {
    if !m.Map? {
      return;
    }
    field.dims := Dims(m.width, m.height);
    RowEnds(field.dims, 0);
    for i := 0 to m.height
      invariant field.dims == Dims(m.width, m.height) && Arrived(field, m.tiles, i, 0) && OutsideKept(field)
    {
      FillRow(field, m.tiles, i);
    }
    FilledView(field, m.tiles);
  }

  /** One row of the nested loops. */
  method FillRow(field: GameMap, ts: seq<TileData>, i: nat)
    requires i < field.dims.height <= field.tiles.Length0 && field.dims.width <= field.tiles.Length1
    requires |ts| == Size(field.dims) && Arrived(field, ts, i, 0)
    modifies field.tiles
    ensures Arrived(field, ts, i + 1, 0) && OutsideKept(field)
  {
    var index := Index(field.dims, Coord(i, 0));
    for j := 0 to field.dims.width
      invariant Arrived(field, ts, i, j) && OutsideKept(field) && index == Index(field.dims, Coord(i, j))
    {
      IndexFacts(field.dims, Coord(i, j), Coord(i, j));
      SetTileState(field, Coord(i, j), FromData(ts[index]));
      index := index + 1;
    }
  }

  /** No tile beyond the dimensions has been written. */
  twostate predicate OutsideKept(field: GameMap)
    reads field, field.tiles
  {
    forall i, j :: 0 <= i < field.tiles.Length0 && 0 <= j < field.tiles.Length1 && !field.dims.Has(Coord(i, j)) ==>
      field.tiles[i, j] == old(field.tiles[i, j])
  }

  lemma FilledView(field: GameMap, ts: seq<TileData>)
    requires field.tiles.Length0 == MAX_MAP_HEIGHT && field.tiles.Length1 == MAX_MAP_WIDTH
    requires Arrived(field, ts, field.dims.height, 0)
    ensures field.dims.Legal() ==> forall c :: field.dims.Has(c) ==> FilledAt(field.View(), ts, c)
  {
  }

  /** The tiles before (i, j) have been taken from ts. */
  ghost predicate Arrived(field: GameMap, ts: seq<TileData>, i: nat, j: nat)
    reads field, field.tiles
  {
    forall c: Coord :: field.dims.Has(c) && Before(c, i, j) ==>
      c.row < field.tiles.Length0 && c.col < field.tiles.Length1 && Index(field.dims, c) < |ts|
      && field.tiles[c.row, c.col] == FromData(ts[Index(field.dims, c)])
  }

  ghost predicate FilledAt(g: Grid, ts: seq<TileData>, c: Coord) {
    c in g.tiles && Index(g.dims, c) < |ts| && g.tiles[c] == FromData(ts[Index(g.dims, c)])
  }

  /** The fields of a tile fit the types of the source. */
  predicate Fits(t: Tile) {
    t.order < 0x1_0000_0000_0000_0000 && t.player < 0x1_0000
  }

  /** The message made of a field arrives unchanged. */
  lemma FieldMessageArrives(g: Grid, m: Message, rest: seq<Byte>)
    requires g.Valid() && (forall c :: c in g.tiles ==> Fits(g.tiles[c]))
    requires m.Map? && m.width == g.dims.width && m.height == g.dims.height && Lists(g, m.tiles)
    ensures Parse(Bytes(m) + rest) == Got(m, rest)
  {
    forall i | 0 <= i < |m.tiles| ensures TileInRange(m.tiles[i]) {
      var c := AtIndex(g.dims, i);
      assert ListedAt(g, m.tiles, c);
    }
    SizeLegal(g.dims);
    MessageRoundTrip(m, rest);
  }

  /** A field filled from the message made of g is g, tile by tile. */
  lemma FilledFieldIsSame(g: Grid, ts: seq<TileData>, h: Grid)
    requires g.Valid() && Lists(g, ts)
    requires h.Valid() && h.dims == g.dims && forall c :: h.dims.Has(c) ==> FilledAt(h, ts, c)
    ensures h == g
  {
    forall c | c in g.tiles ensures h.tiles[c] == g.tiles[c] {
      assert ListedAt(g, ts, c) && FilledAt(h, ts, c);
    }
    assert h.tiles == g.tiles;
  }

  lemma SizeLegal(m: Dims)
    requires m.Legal()
    ensures Size(m) == m.width * m.height < TWO_TO_32
  {
    RowsApart(m.width, m.height, MAX_MAP_HEIGHT + 1);
    assert m.width * (MAX_MAP_HEIGHT + 1) <= MAX_MAP_WIDTH * (MAX_MAP_HEIGHT + 1);
  }

  /** Every row-major position is that of a tile. */
  lemma {:induction false} AtIndex(m: Dims, i: nat) returns (c: Coord)
    requires i < Size(m)
    ensures m.Has(c) && Index(m, c) == i
    decreases m.height
  {
    TimesNext(m.width, m.height - 1);
    var upper := Dims(m.width, m.height - 1);
    if i < Size(upper) {
      c := AtIndex(upper, i);
    } else {
      c := Coord(m.height - 1, i - Size(upper));
    }
  }
}
