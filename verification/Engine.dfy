/** The per-tick list of tile changes and its replay (libsnake/changelog/). */
module Changes {
  import opened Torus
  import opened Field

  const MAX_PLAYERS := 64
  const MAX_CHANGELOG_SIZE := MAX_MAP_WIDTH * MAX_MAP_HEIGHT + MAX_PLAYERS

  datatype Change = Change(at: Coord, tile: Tile)

  /** The tiles after the changes have been applied in order. */
  function Replay(log: seq<Change>, tiles: map<Coord, Tile>): map<Coord, Tile> {
    if log == [] then tiles
    else var n := |log| - 1; Replay(log[..n], tiles)[log[n].at := log[n].tile]
  }

  lemma ReplayPush(log: seq<Change>, c: Change, tiles: map<Coord, Tile>)
    ensures Replay(log + [c], tiles) == Replay(log, tiles)[c.at := c.tile]
  {
    assert (log + [c])[..|log|] == log;
  }

  /** Does the log mention the tile? */
  ghost predicate Touches(log: seq<Change>, c: Coord) {
    exists i :: 0 <= i < |log| && log[i].at == c
  }

  lemma TouchesLonger(log: seq<Change>, x: Change, c: Coord)
    ensures Touches(log + [x], c) <==> Touches(log, c) || x.at == c
  {
    if Touches(log, c) {
      var i :| 0 <= i < |log| && log[i].at == c;
      assert (log + [x])[i].at == c;
    }
    assert (log + [x])[|log|] == x;
  }

  /** What a replay leaves on a tile depends on the field before only if the log never mentions it. */
  lemma {:induction false} ReplayAt(log: seq<Change>, a: map<Coord, Tile>, b: map<Coord, Tile>, c: Coord)
    ensures Touches(log, c) ==> c in Replay(log, a) && c in Replay(log, b) && Replay(log, a)[c] == Replay(log, b)[c]
    ensures !Touches(log, c) ==> (c in Replay(log, a) <==> c in a) && (c in a ==> Replay(log, a)[c] == a[c])
    decreases |log|
  {
    if log != [] {
      var n := |log| - 1;
      ReplayAt(log[..n], a, b, c);
      assert log == log[..n] + [log[n]];
      TouchesLonger(log[..n], log[n], c);
    }
  }

  /** Replaying a log a second time changes nothing. */
  lemma ReplayIdempotent(log: seq<Change>, tiles: map<Coord, Tile>)
    ensures Replay(log, Replay(log, tiles)) == Replay(log, tiles)
  {
    var once := Replay(log, tiles);
    var twice := Replay(log, once);
    forall c ensures (c in twice <==> c in once) && (c in once ==> twice[c] == once[c]) {
      ReplayAt(log, once, tiles, c);
      ReplayAt(log, tiles, once, c);
    }
  }
}

/** One server tick as a function of the state and of the random picks made during it
    (server/server.c). */
module Engine {
  import opened Torus
  import opened Field
  import opened Options
  import opened Changes
  import Flood

  datatype Status = NotConnected | Playing | Paused | PlayerDead | Respawning | Joining | Disconnecting

  datatype Player = Player(status: Status, direction: Direction)

  /** The players that own tiles between ticks. */
  predicate Alive(status: Status) {
    status == Playing || status == Paused || status == Disconnecting
  }

  /** The field, the player slots, the cached heads and tails, the changelog and the three
      accumulators of process_player_data_t. */
  datatype State = State(
    grid: Grid, players: seq<Player>, head: seq<Coord>, tail: seq<Coord>,
    log: seq<Change>, eaten: nat, died: bool, noneAlive: bool)
  {
    ghost predicate Fit() {
      grid.Valid() && |players| == |head| == |tail| == MAX_PLAYERS
    }

    function Push(c: Coord): State
      requires c in grid.tiles
    {
      this.(log := log + [Change(c, grid.tiles[c])])
    }

    function PutBody(c: Coord, p: nat, order: nat): State {
      this.(grid := grid.SetBody(c, p, order))
    }

    function PutKind(c: Coord, kind: TileKind): State
      requires c in grid.tiles
    {
      this.(grid := grid.SetKind(c, kind))
    }

    function PutHead(p: nat, c: Coord): State
      requires p < |head|
    {
      this.(head := head[p := c])
    }

    function PutTail(p: nat, c: Coord): State
      requires p < |tail|
    {
      this.(tail := tail[p := c])
    }

    function PutPlayer(p: nat, player: Player): State
      requires p < |players|
    {
      this.(players := players[p := player])
    }

    function SetStatus(p: nat, status: Status): State
      requires p < |players|
    {
      PutPlayer(p, players[p].(status := status))
    }
  }

  ghost predicate Cached(s: State, p: nat) {
    s.Fit() && p < MAX_PLAYERS && s.grid.dims.Has(s.head[p]) && s.grid.dims.Has(s.tail[p])
  }

  /** The tiles the engine looks up through the caches and through the tiles themselves exist. */
  ghost predicate Addressable(s: State) {
    && s.Fit()
    && (forall p :: 0 <= p < MAX_PLAYERS && Alive(s.players[p].status) ==> Cached(s, p))
    && (forall c :: c in s.grid.tiles && s.grid.tiles[c].kind == Body ==>
          s.grid.tiles[c].player < MAX_PLAYERS && Cached(s, s.grid.tiles[c].player))
  }

  /** move_player_head */
  function MoveHead(s: State, p: nat, next: Coord): (r: State)
    requires Cached(s, p) && s.grid.dims.Has(next)
    ensures Cached(r, p)
  {
    var order := s.grid.tiles[s.head[p]].order + 1;
    s.PutBody(next, p, order).PutHead(p, next).Push(next)
  }

  /** The first half of move_player_tail: the old tail is emptied unless another snake took it
      or the snake's own head has just moved onto it. */
  function ClearTail(s: State, p: nat): (r: State)
    requires Cached(s, p)
    ensures Cached(r, p)
  {
    var tail := s.tail[p];
    if Owned(s.grid, p, tail) && s.head[p] != tail
    then s.PutKind(tail, Empty).Push(tail)
    else s
  }

  /** move_player_tail; None stands for the exit "failed to find next snake tail tile". */
  function MoveTail(s: State, p: nat): (r: Option<State>)
    requires Cached(s, p)
    ensures r.Some? ==> r.value.Fit()
  {
    var r := ClearTail(s, p);
    var next := LowestNeighbor(r.grid, p, s.tail[p]);
    if next.None? then None
    else Some(r.PutTail(p, next.value).Push(next.value))
  }

  function Advance(s: State, p: nat, next: Coord): (r: Option<State>)
    requires Cached(s, p) && s.grid.dims.Has(next)
    ensures r.Some? ==> r.value.Fit()
  {
    MoveTail(MoveHead(s, p, next), p)
  }

  /** kill_player */
  function Kill(s: State, p: nat): (r: State)
    requires Cached(s, p)
    ensures r.Fit()
  {
    s.(grid := Flood.Mark(s.grid, p, s.head[p]), died := true).SetStatus(p, PlayerDead)
  }

  predicate FreeSpot(g: Grid, c: Coord) {
    IsKind(g, c, Empty)
  }

  predicate SpawnSpot(g: Grid, c: Coord) {
    IsKind(g, c, Empty) && g.dims.Has(c) && EmptyNeighbor(g, c).Some?
  }

  /** What a complete random search may return. */
  ghost predicate Picked(g: Grid, wanted: (Grid, Coord) -> bool, pick: Option<Coord>) {
    match pick
    case Some(c) => g.dims.Has(c) && wanted(g, c)
    case None => forall c :: g.dims.Has(c) ==> !wanted(g, c)
  }

  /** spawn_fruit */
  function SpawnFruit(s: State, pick: Option<Coord>): (r: State)
    requires pick.Some? ==> pick.value in s.grid.tiles
    ensures s.Fit() ==> r.Fit()
  {
    if pick.None? then s else s.PutKind(pick.value, Fruit).Push(pick.value)
  }

  /** spawn_player, once the head has been picked */
  function Spawn(s: State, p: nat, head: Coord): (r: State)
    requires s.Fit() && p < MAX_PLAYERS && s.grid.dims.Has(head) && SpawnSpot(s.grid, head)
    ensures r.Fit()
  {
    var d := EmptyNeighbor(s.grid, head).value;
    var tail := Move(s.grid.dims, head, d);
    var r := s.PutPlayer(p, Player(Playing, Opposite(d)));
    r.PutBody(head, p, 1).PutHead(p, head).Push(head).PutBody(tail, p, 0).PutTail(p, tail).Push(tail)
  }

  /** The random picks of one call of server_tick_process_player. */
  datatype Choice = Choice(spawn: Option<Coord>, fruit: Option<Coord>)

  ghost predicate Allowed(s: State, p: nat, ch: Choice)
    requires s.Fit() && p < MAX_PLAYERS
  {
    var status := s.players[p].status;
    Waiting(status) ==>
      && Picked(s.grid, SpawnSpot, ch.spawn)
      && (status == Joining && ch.spawn.Some? ==> Picked(Spawn(s, p, ch.spawn.value).grid, FreeSpot, ch.fruit))
  }

  function NextHead(s: State, p: nat): Coord
    requires p < |s.players| && p < |s.head| && s.grid.dims.Has(s.head[p])
  {
    Move(s.grid.dims, s.head[p], s.players[p].direction)
  }

  /** May player p step onto tile `next` that another player q owns? Only onto q's tail, if q
      moves later in this tick, is not paused, and is now looking at an empty tile. */
  predicate MayFollow(s: State, p: nat, q: nat, next: Coord)
    requires s.grid.Valid() && q < |s.players| && q < |s.head| && q < |s.tail| && s.grid.dims.Has(s.head[q])
  {
    next == s.tail[q] && p < q && s.players[q].status != Paused && IsKind(s.grid, NextHead(s, q), Empty)
  }

  function Ate(s: State): State {
    s.(eaten := s.eaten + 1)
  }

  /** The PLAYING branch of server_tick_process_player. */
  function Play(s: State, p: nat): (r: Option<State>)
    requires Addressable(s) && p < MAX_PLAYERS && s.players[p].status == Playing
    ensures r.Some? ==> r.value.Fit()
  {
    var next := NextHead(s, p);
    var tile := s.grid.tiles[next];
    match tile.kind
    case Empty => Advance(s, p, next)
    case Fruit => Some(Ate(MoveHead(s, p, next)))
    case Body =>
      if (if tile.player == p then next == s.tail[p] else MayFollow(s, p, tile.player, next))
      then Advance(s, p, next)
      else Some(Kill(s, p))
    case _ => Some(Kill(s, p))
  }

  predicate Waiting(status: Status) {
    status == Joining || status == Respawning
  }

  /** The spawning branch of server_tick_process_player; only a joining player brings a fruit. */
  function Join(s: State, p: nat, ch: Choice): (r: State)
    requires s.Fit() && p < MAX_PLAYERS && Waiting(s.players[p].status) && Allowed(s, p, ch)
    ensures r.Fit()
  {
    if ch.spawn.None? then s.SetStatus(p, PlayerDead)
    else
      var r := Spawn(s, p, ch.spawn.value);
      (if s.players[p].status == Joining then SpawnFruit(r, ch.fruit) else r).(noneAlive := false)
  }

  /** A player that has not died in its move keeps the game going. */
  function Survived(r: Option<State>, p: nat): (t: Option<State>)
    requires p < MAX_PLAYERS && (r.Some? ==> r.value.Fit())
    ensures t.Some? ==> t.value.Fit()
  {
    if r.None? || r.value.players[p].status == PlayerDead then r else Some(r.value.(noneAlive := false))
  }

  /** server_tick_process_player; None stands for process exit. */
  function ProcessPlayer(s: State, p: nat, ch: Choice): (r: Option<State>)
    requires Addressable(s) && p < MAX_PLAYERS && Allowed(s, p, ch)
    ensures r.Some? ==> r.value.Fit()
  {
    var status := s.players[p].status;
    if Waiting(status) then Some(Join(s, p, ch))
    else if status == Disconnecting then Some(Kill(s, p).SetStatus(p, NotConnected))
    else if status == Paused then Some(s.(noneAlive := false))
    else if status == Playing then
      Survived(Play(s, p), p)
    else Some(s)
  }

  ghost predicate Step(s: State, p: nat, ch: Choice, r: State) {
    Addressable(s) && p < MAX_PLAYERS && Allowed(s, p, ch) && ProcessPlayer(s, p, ch) == Some(r)
  }

  /** The states passed through while players 0, 1, ... are processed in order, as
      player_manager_for_each does. */
  ghost predicate PlayersTrace(t: seq<State>, chs: seq<Choice>) {
    |t| == |chs| + 1 && forall i :: 0 <= i < |chs| ==> Step(t[i], i, chs[i], t[i + 1])
  }

  /** The rows from i on, and in row i the columns from j on, swept of dead tiles. */
  function Sweep(s: State, i: nat, j: nat): (r: State)
    requires s.grid.Valid() && i <= s.grid.dims.height && j <= s.grid.dims.width
    ensures r.grid.Valid()
    decreases s.grid.dims.height - i, s.grid.dims.width - j
  {
    if i == s.grid.dims.height then s
    else if j == s.grid.dims.width then Sweep(s, i + 1, 0)
    else Sweep(SweepTile(s, Coord(i, j)), i, j + 1)
  }

  function SweepTile(s: State, c: Coord): (r: State)
    requires s.grid.Valid() && s.grid.dims.Has(c)
    ensures r.grid.Valid()
  {
    if IsKind(s.grid, c, Dead) then s.PutKind(c, Empty).Push(c) else s
  }

  ghost predicate Refill(s: State, pick: Option<Coord>, r: State) {
    s.grid.Valid() && Picked(s.grid, FreeSpot, pick) && r == SpawnFruit(s, pick)
  }

  /** The states passed through while the fruits eaten in the tick are spawned anew. */
  ghost predicate FruitsTrace(t: seq<State>, picks: seq<Option<Coord>>) {
    |t| == |picks| + 1 && forall i :: 0 <= i < |picks| ==> Refill(t[i], picks[i], t[i + 1])
  }

  /** The state in which server_tick starts its loop over the players. */
  function Opened(s: State): State {
    s.(log := [], eaten := 0, died := false, noneAlive := true)
  }

  /** The sweep, which runs only if some player died. */
  function Swept(s: State): (r: State)
    requires s.grid.Valid()
    ensures r.grid.Valid()
  {
    if s.died then Sweep(s, 0, 0) else s
  }

  /** server_tick up to the release of the player locks. */
  ghost predicate TickPlayers(s: State, t: seq<State>, chs: seq<Choice>) {
    |chs| == MAX_PLAYERS && PlayersTrace(t, chs) && t[0] == Opened(s)
  }

  /** server_tick from there on: the sweep and the new fruits. */
  ghost predicate TickField(s: State, t: seq<State>, picks: seq<Option<Coord>>) {
    s.grid.Valid() && |picks| == s.eaten && FruitsTrace(t, picks) && t[0] == Swept(s)
  }
}
