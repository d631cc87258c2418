/** The server's objects, updated in place (libsnake/changelog/changelog.c,
    libsnake/player/player_manager.c, server/player_data_cache.c, server/server.c). */
module ServerClass {
  import opened Torus
  import opened Field
  import opened Options
  import opened Changes
  import opened Engine
  import opened Operations
  import opened Chains
  import opened Ticks
  import opened Exits
  import opened GameMapClass
  import Budget
  import Flood

  /** The bounded list of changes of the current tick. */
  class Changelog {
    const changes: array<Change>
    var size: nat

    ghost predicate Valid()
      reads this
    {
      changes.Length == MAX_CHANGELOG_SIZE && size <= changes.Length
    }

    ghost function Log(): seq<Change>
      requires Valid()
      reads this, changes
    {
      changes[..size]
    }

    constructor ()
      ensures Valid() && fresh(changes) && Log() == []
    {
      changes := new Change[MAX_CHANGELOG_SIZE](_ => Change(Coord(0, 0), Tile(0, Empty, 0)));
      size := 0;
    }

    method Clear()
      requires Valid()
      modifies this
      ensures Valid() && Log() == []
    {
      size := 0;
    }

    method Push(c: Coord, tile: Tile)
      requires Valid() && size < MAX_CHANGELOG_SIZE
      modifies this, changes
      ensures Valid() && Log() == old(Log()) + [Change(c, tile)]
    {
      changes[size] := Change(c, tile);
      size := size + 1;
    }
  }

  /** The head and tail coordinates of every player. */
  class PlayerDataCache {
    const head: array<Coord>
    const tail: array<Coord>

    ghost predicate Valid() {
      head.Length == MAX_PLAYERS && tail.Length == MAX_PLAYERS && head != tail
    }

    constructor ()
      ensures Valid() && fresh(head) && fresh(tail)
    {
      head := new Coord[MAX_PLAYERS](_ => Coord(0, 0));
      tail := new Coord[MAX_PLAYERS](_ => Coord(0, 0));
    }
  }

  /** The player slots and what clients do to them between ticks. */
  class PlayerManager {
    const players: array<Player>

    ghost predicate Valid() {
      players.Length == MAX_PLAYERS
    }

    constructor ()
      ensures Valid() && fresh(players)
      ensures forall p :: 0 <= p < MAX_PLAYERS ==> players[p].status == NotConnected
    {
      players := new Player[MAX_PLAYERS](_ => Player(NotConnected, Up));
    }

    /** player_manager_register: takes the first free slot. */
    method Register() returns (found: bool, id: nat)
      requires Valid()
      modifies players
      ensures found ==> id < MAX_PLAYERS && old(players[id].status) == NotConnected
      ensures found ==> players[..] == old(players[..])[id := Player(Joining, Up)]
      ensures found ==> forall q :: 0 <= q < id ==> old(players[q].status) != NotConnected
      ensures !found ==> players[..] == old(players[..])
      ensures !found ==> forall q :: 0 <= q < MAX_PLAYERS ==> players[q].status != NotConnected
    {
      id := 0;
      while id < MAX_PLAYERS
        invariant id <= MAX_PLAYERS
        invariant players[..] == old(players[..])
        invariant forall q :: 0 <= q < id ==> players[q].status != NotConnected
      {
        if players[id].status == NotConnected {
          players[id] := Player(Joining, Up);
          return true, id;
        }
        id := id + 1;
      }
      return false, 0;
    }

    /** player_manager_unregister */
    method Unregister(id: nat)
      requires Valid() && id < MAX_PLAYERS
      modifies players
      ensures players[..] == old(players[..])[id := Unregistered(old(players[id]))]
    {
      var status := players[id].status;
      players[id] := players[id].(status :=
        if status == PlayerDead || status == Respawning || status == Joining then NotConnected else Disconnecting);
    }

    /** What pausing, unpausing and respawning have in common. */
    method Switch(id: nat, from: Status, to: Status)
      requires Valid() && id < MAX_PLAYERS
      modifies players
      ensures players[..] == old(players[..])[id := Switched(old(players[id]), from, to)]
    {
      if players[id].status == from {
        players[id] := players[id].(status := to);
      }
    }

    /** player_manager_pause */
    method Pause(id: nat)
      requires Valid() && id < MAX_PLAYERS
      modifies players
      ensures players[..] == old(players[..])[id := Operate(old(players[id]), Operation.Pause)]
    {
      Switch(id, Playing, Paused);
    }

    /** player_manager_unpause */
    method Unpause(id: nat)
      requires Valid() && id < MAX_PLAYERS
      modifies players
      ensures players[..] == old(players[..])[id := Operate(old(players[id]), Operation.Unpause)]
    {
      Switch(id, Paused, Playing);
    }

    /** player_manager_respawn */
    method Respawn(id: nat)
      requires Valid() && id < MAX_PLAYERS
      modifies players
      ensures players[..] == old(players[..])[id := Operate(old(players[id]), Operation.Respawn)]
    {
      Switch(id, PlayerDead, Respawning);
    }

    /** player_manager_set_player_direction */
    method Turn(id: nat, direction: Direction)
      requires Valid() && id < MAX_PLAYERS
      modifies players
      ensures players[..] == old(players[..])[id := Operate(old(players[id]), Operation.Turn(direction))]
    {
      players[id] := players[id].(direction := direction);
    }
  }

  class Server {
    const map_: GameMap
    const changelog: Changelog
    const manager: PlayerManager
    const cache: PlayerDataCache
    var fruitsEaten: nat
    var playerDied: bool
    var noPlayerAlive: bool

    ghost predicate Valid()
      reads this, map_, changelog
    {
      map_.Valid() && changelog.Valid() && manager.Valid() && cache.Valid()
    }

    ghost function View(): (s: State)
      requires Valid()
      reads this, map_, map_.tiles, changelog, changelog.changes, manager.players, cache.head, cache.tail
      ensures s.Fit()
    {
      State(map_.View(), manager.players[..], cache.head[..], cache.tail[..],
            changelog.Log(), fruitsEaten, playerDied, noPlayerAlive)
    }

    /** A server on a field with the given walls and with no player connected. */
    constructor (dims: Dims, walls: set<Coord>)
      requires dims.Legal()
      ensures Valid() && fresh(map_) && fresh(map_.tiles) && fresh(changelog) && fresh(changelog.changes)
      ensures fresh(manager.players) && fresh(cache.head) && fresh(cache.tail)
      ensures View().grid.dims == dims && View().log == []
      ensures forall c :: dims.Has(c) ==> View().grid.tiles[c] == Tile(0, if c in walls then Wall else Empty, 0)
      ensures forall p :: 0 <= p < MAX_PLAYERS ==> View().players[p].status == NotConnected
      ensures Snakes(View()) && NoDead(View().grid)
    {
      map_ := new GameMap.FromTemplate(dims, walls);
      changelog := new Changelog();
      manager := new PlayerManager();
      cache := new PlayerDataCache();
      fruitsEaten, playerDied, noPlayerAlive := 0, false, true;
      new;
      NobodyConnected(View());
    }

    /** PUSH_CHANGELOG_TILE: logs the current state of a tile. */
    method PushTile(c: Coord)
      requires Valid() && map_.dims.Has(c) && changelog.size < MAX_CHANGELOG_SIZE
      modifies changelog, changelog.changes
      ensures Valid() && View() == old(View()).Push(c)
    {
      changelog.Push(c, map_.TileAt(c));
    }

    method SetBody(c: Coord, p: nat, order: nat)
      requires Valid() && map_.dims.Has(c)
      modifies map_.tiles
      ensures Valid() && View() == old(View()).PutBody(c, p, order)
    {
      map_.SetBody(c, p, order);
    }

    method SetKind(c: Coord, kind: TileKind)
      requires Valid() && map_.dims.Has(c)
      modifies map_.tiles
      ensures Valid() && View() == old(View()).PutKind(c, kind)
    {
      map_.SetKind(c, kind);
    }

    /** player_data_cache_set_head */
    method SetHead(p: nat, c: Coord)
      requires Valid() && p < MAX_PLAYERS
      modifies cache.head
      ensures Valid() && View() == old(View()).PutHead(p, c)
    {
      cache.head[p] := c;
    }

    /** player_data_cache_set_tail */
    method SetTail(p: nat, c: Coord)
      requires Valid() && p < MAX_PLAYERS
      modifies cache.tail
      ensures Valid() && View() == old(View()).PutTail(p, c)
    {
      cache.tail[p] := c;
    }

    method SetPlayer(p: nat, player: Player)
      requires Valid() && p < MAX_PLAYERS
      modifies manager.players
      ensures Valid() && View() == old(View()).PutPlayer(p, player)
    {
      manager.players[p] := player;
    }

    method SetStatus(p: nat, status: Status)
      requires Valid() && p < MAX_PLAYERS
      modifies manager.players
      ensures Valid() && View() == old(View()).SetStatus(p, status)
    {
      manager.players[p] := manager.players[p].(status := status);
    }

    /** Writes a head tile, caches it and logs it. */
    method PlaceHead(p: nat, c: Coord, order: nat)
      requires Valid() && p < MAX_PLAYERS && map_.dims.Has(c) && changelog.size < MAX_CHANGELOG_SIZE
      modifies map_.tiles, changelog, changelog.changes, cache.head
      ensures Valid() && View() == old(View()).PutBody(c, p, order).PutHead(p, c).Push(c)
    {
      SetBody(c, p, order);
      SetHead(p, c);
      PushTile(c);
    }

    /** The same for a tail tile. */
    method PlaceTail(p: nat, c: Coord, order: nat)
      requires Valid() && p < MAX_PLAYERS && map_.dims.Has(c) && changelog.size < MAX_CHANGELOG_SIZE
      modifies map_.tiles, changelog, changelog.changes, cache.tail
      ensures Valid() && View() == old(View()).PutBody(c, p, order).PutTail(p, c).Push(c)
    {
      SetBody(c, p, order);
      SetTail(p, c);
      PushTile(c);
    }

    function HeadOrder(p: nat): (order: nat)
      requires Valid() && Cached(View(), p)
      reads this, map_, map_.tiles, changelog, changelog.changes, manager.players, cache.head, cache.tail
      ensures order == View().grid.tiles[View().head[p]].order
    {
      map_.TileAt(cache.head[p]).order
    }

    method MoveHead(p: nat, next: Coord)
      requires Valid() && Cached(View(), p) && map_.dims.Has(next) && changelog.size < MAX_CHANGELOG_SIZE
      modifies map_.tiles, changelog, changelog.changes, cache.head
      ensures Valid() && View() == Engine.MoveHead(old(View()), p, next)
    {
      PlaceHead(p, next, HeadOrder(p) + 1);
    }

    method ClearTail(p: nat)
      requires Valid() && Cached(View(), p) && changelog.size < MAX_CHANGELOG_SIZE
      modifies map_.tiles, changelog, changelog.changes
      ensures Valid() && View() == Engine.ClearTail(old(View()), p)
    {
      var tail := cache.tail[p];
      var tailState := map_.TileAt(tail);
      if tailState.kind == Body && tailState.player == p {
        var head := cache.head[p];
        if head != tail {
          SetKind(tail, Empty);
          PushTile(tail);
        }
      }
    }

    /** Returns false where the source exits. */
    method MoveTail(p: nat) returns (ok: bool)
      requires Valid() && Cached(View(), p) && changelog.size + 2 <= MAX_CHANGELOG_SIZE
      modifies map_.tiles, changelog, changelog.changes, cache.tail
      ensures Valid()
      ensures Engine.MoveTail(old(View()), p) == if ok then Some(View()) else None
    {
      var tail := cache.tail[p];
      ClearTail(p);
      var next := LowestNeighbor(map_.View(), p, tail);
      if next.None? {
        return false;
      }
      SetTail(p, next.value);
      PushTile(next.value);
      return true;
    }

    method Kill(p: nat)
      requires Valid() && Cached(View(), p)
      modifies this, map_.tiles, manager.players
      ensures Valid() && View() == Engine.Kill(old(View()), p)
    {
      MarkPlayerAsDead(p, cache.head[p]);
      SetStatus(p, PlayerDead);
      NoteDeath();
    }

    method NoteDeath()
      requires Valid()
      modifies this`playerDied
      ensures Valid() && View() == old(View()).(died := true)
    {
      playerDied := true;
    }

    method MarkPlayerAsDead(p: nat, c: Coord)
      requires Valid() && map_.dims.Has(c)
      modifies map_.tiles
      ensures Valid() && View() == old(View()).(grid := Flood.Mark(old(View()).grid, p, c))
    {
      map_.MarkPlayerAsDead(p, c);
    }

    /** map_find_random_matching_predicate on the server's map. */
    method Pick(wanted: (Grid, Coord) -> bool) returns (pick: Option<Coord>)
      requires Valid()
      ensures Valid() && View() == old(View()) && Picked(View().grid, wanted, pick)
    {
      var found, c := map_.FindRandomMatching(wanted);
      pick := if found then Some(c) else None;
    }

    method SpawnFruit() returns (ghost pick: Option<Coord>)
      requires Valid() && changelog.size < MAX_CHANGELOG_SIZE
      modifies map_.tiles, changelog, changelog.changes
      ensures Valid() && Refill(old(View()), pick, View())
    {
      var fruit := Pick(FreeSpot);
      pick := fruit;
      if fruit.Some? {
        PlaceFruit(fruit.value);
      }
    }

    method PlaceFruit(c: Coord)
      requires Valid() && map_.dims.Has(c) && changelog.size < MAX_CHANGELOG_SIZE
      modifies map_.tiles, changelog, changelog.changes
      ensures Valid() && View() == Engine.SpawnFruit(old(View()), Some(c))
    {
      SetKind(c, Fruit);
      PushTile(c);
    }

    method SpawnPlayer(p: nat) returns (found: bool, ghost pick: Option<Coord>)
      requires Valid() && p < MAX_PLAYERS && changelog.size + 2 <= MAX_CHANGELOG_SIZE
      modifies map_.tiles, changelog, changelog.changes, manager.players, cache.head, cache.tail
      ensures Valid() && Picked(old(View()).grid, SpawnSpot, pick) && found == pick.Some?
      ensures View() == if found then Engine.Spawn(old(View()), p, pick.value) else old(View())
    {
      var head := Pick(SpawnSpot);
      found, pick := head.Some?, head;
      if found {
        PlaceSnake(p, head.value);
      }
    }

    method PlaceSnake(p: nat, head: Coord)
      requires Valid() && p < MAX_PLAYERS && changelog.size + 2 <= MAX_CHANGELOG_SIZE
      requires map_.dims.Has(head) && SpawnSpot(View().grid, head)
      modifies map_.tiles, changelog, changelog.changes, manager.players, cache.head, cache.tail
      ensures Valid() && View() == Engine.Spawn(old(View()), p, head)
    {
      var direction := EmptyNeighbor(map_.View(), head).value;
      var tail := Move(map_.dims, head, direction);
      SetPlayer(p, Player(Playing, Opposite(direction)));
      PlaceHead(p, head, 1);
      assert changelog.size == |View().log|;
      PlaceTail(p, tail, 0);
    }

    ghost predicate Roomy()
      reads this, changelog
    {
      changelog.size + 3 <= MAX_CHANGELOG_SIZE
    }

    method Advance(p: nat, next: Coord) returns (ok: bool)
      requires Valid() && Cached(View(), p) && map_.dims.Has(next) && Roomy()
      modifies map_.tiles, changelog, changelog.changes, cache.head, cache.tail
      ensures Valid()
      ensures Engine.Advance(old(View()), p, next) == if ok then Some(View()) else None
    {
      MoveHead(p, next);
      assert changelog.size == |View().log|;
      ok := MoveTail(p);
    }

    method Eat(p: nat, next: Coord)
      requires Valid() && Cached(View(), p) && map_.dims.Has(next) && Roomy()
      modifies this, map_.tiles, changelog, changelog.changes, cache.head
      ensures Valid() && View() == Ate(Engine.MoveHead(old(View()), p, next))
    {
      MoveHead(p, next);
      CountFruit();
    }

    method CountFruit()
      requires Valid()
      modifies this`fruitsEaten
      ensures Valid() && View() == Ate(old(View()))
    {
      fruitsEaten := fruitsEaten + 1;
    }

    /** The PLAYING branch of server_tick_process_player. */
    method Play(p: nat) returns (ok: bool)
      requires Valid() && Addressable(View()) && p < MAX_PLAYERS && manager.players[p].status == Playing && Roomy()
      modifies this, map_.tiles, changelog, changelog.changes, manager.players, cache.head, cache.tail
      ensures Valid()
      ensures Engine.Play(old(View()), p) == if ok then Some(View()) else None
    {
      ok := true;
      var next := Move(map_.dims, cache.head[p], manager.players[p].direction);
      var nextState := map_.TileAt(next);
      assert next == NextHead(View(), p) && nextState == View().grid.tiles[next];
      if nextState.kind == Empty {
        ok := Advance(p, next);
      } else if nextState.kind == Fruit {
        Eat(p, next);
      } else if nextState.kind == Body && MayEnter(p, next, nextState.player) {
        ok := Advance(p, next);
      } else {
        Kill(p);
      }
    }

    /** Whether player p may step onto the tile `next` of player `other`. */
    function MayEnter(p: nat, next: Coord, other: nat): (r: bool)
      requires Valid() && p < MAX_PLAYERS && other < MAX_PLAYERS && map_.dims.Has(cache.head[other])
      reads this, map_, map_.tiles, changelog, changelog.changes, manager.players, cache.head, cache.tail
      ensures r == if other == p then next == View().tail[p] else MayFollow(View(), p, other, next)
    {
      if p == other then next == cache.tail[other]
      else if next != cache.tail[other] || other < p || manager.players[other].status == Paused then false
      else
        var otherNext := Move(map_.dims, cache.head[other], manager.players[other].direction);
        map_.TileAt(otherNext).kind == Empty
    }

    method SetSomeAlive()
      requires Valid()
      modifies this`noPlayerAlive
      ensures Valid() && View() == old(View()).(noneAlive := false)
    {
      noPlayerAlive := false;
    }

    /** server_tick_process_player; returns false where the source exits. */
    method ProcessPlayer(p: nat) returns (ok: bool, ghost ch: Choice)
      requires Valid() && Addressable(View()) && p < MAX_PLAYERS && Roomy()
      modifies this, map_.tiles, changelog, changelog.changes, manager.players, cache.head, cache.tail
      ensures Valid() && Allowed(old(View()), p, ch)
      ensures Engine.ProcessPlayer(old(View()), p, ch) == if ok then Some(View()) else None
    {
      ok, ch := true, Choice(None, None);
      var status := manager.players[p].status;
      if status == Respawning || status == Joining {
        ch := Join(p);
      } else if status == Disconnecting {
        Kill(p);
        SetStatus(p, NotConnected);
      } else if status == Paused {
        SetSomeAlive();
      } else if status == Playing {
        ok := PlayOn(p);
      }
    }

    method PlayOn(p: nat) returns (ok: bool)
      requires Valid() && Addressable(View()) && p < MAX_PLAYERS && manager.players[p].status == Playing && Roomy()
      modifies this, map_.tiles, changelog, changelog.changes, manager.players, cache.head, cache.tail
      ensures Valid()
      ensures Survived(Engine.Play(old(View()), p), p) == if ok then Some(View()) else None
    {
      ok := Play(p);
      assert ok ==> View().players[p] == manager.players[p];
      if ok && manager.players[p].status != PlayerDead {
        SetSomeAlive();
      }
    }

    /** The spawning branch of server_tick_process_player. */
    method Join(p: nat) returns (ghost ch: Choice)
      requires Valid() && Addressable(View()) && p < MAX_PLAYERS && Roomy()
      requires manager.players[p].status == Joining || manager.players[p].status == Respawning
      modifies this, map_.tiles, changelog, changelog.changes, manager.players, cache.head, cache.tail
      ensures Valid() && Allowed(old(View()), p, ch) && Engine.Join(old(View()), p, ch) == View()
    {
      var shouldSpawnFruit := manager.players[p].status == Joining;
      assert View().players[p] == manager.players[p];
      var found;
      ghost var head, fruit: Option<Coord> := None, None;
      found, head := SpawnPlayer(p);
      if !found {
        ch := Choice(None, None);
        SetStatus(p, PlayerDead);
        return;
      }
      ghost var born := View();
      assert changelog.size == |born.log|;
      if shouldSpawnFruit {
        fruit := SpawnFruit();
      }
      ch := Choice(head, fruit);
      SetSomeAlive();
    }

    /** One iteration of the sweep. */
    method SweepTile(c: Coord)
      requires Valid() && map_.dims.Has(c)
      requires IsKind(View().grid, c, Dead) ==> changelog.size < MAX_CHANGELOG_SIZE
      modifies map_.tiles, changelog, changelog.changes
      ensures Valid() && View() == Engine.SweepTile(old(View()), c)
    {
      if map_.TileAt(c).kind == Dead {
        SetKind(c, Empty);
        PushTile(c);
      }
    }

    /** The inner loop of the sweep over row i. */
    method SweepRow(i: nat, ghost goal: State)
      requires Valid() && i < map_.dims.height && Budget.SweepsTo(View(), i, 0, goal)
      modifies map_.tiles, changelog, changelog.changes
      ensures Valid() && Budget.SweepsTo(View(), i, map_.dims.width, goal)
    {
      var width := map_.dims.width;
      ghost var s := View();
      for j := 0 to width
        invariant Valid() && View() == s && Budget.SweepsTo(s, i, j, goal)
      {
        s := SweepNext(i, j, s, goal);
      }
    }

    /** One tile on the way to the goal of the sweep. */
    method SweepNext(i: nat, j: nat, ghost s: State, ghost goal: State) returns (ghost r: State)
      requires Valid() && View() == s && i < map_.dims.height && j < map_.dims.width && Budget.SweepsTo(s, i, j, goal)
      modifies map_.tiles, changelog, changelog.changes
      ensures Valid() && View() == r && Budget.SweepsTo(r, i, j + 1, goal)
    {
      Budget.SweepsToNext(s, i, j, goal);
      assert changelog.size == |s.log|;
      SweepTile(Coord(i, j));
      r := View();
    }

    /** The two nested loops of server_tick that empty the dead tiles. */
    method SweepField()
      requires Valid() && |View().log| + |Budget.DeadFrom(View().grid, 0, 0)| <= MAX_CHANGELOG_SIZE
      modifies map_.tiles, changelog, changelog.changes
      ensures Valid() && View() == Engine.Sweep(old(View()), 0, 0)
    {
      ghost var goal := Engine.Sweep(View(), 0, 0);
      var height := map_.dims.height;
      for i := 0 to height
        invariant Valid() && Budget.SweepsTo(View(), i, 0, goal)
      {
        SweepRow(i, goal);
        Budget.SweepsToRow(View(), i, goal);
      }
    }

    /** player_manager_for_each over server_tick_process_player, up to the end or to the exit; the
        changelog has room for everything logged. */
    method ProcessPlayers() returns (ok: bool, ghost t: seq<State>, ghost chs: seq<Choice>, ghost ch: Choice)
      requires Valid() && Addressable(View()) && Budget.Owed(View()) == 0
      modifies this, map_.tiles, changelog, changelog.changes, manager.players, cache.head, cache.tail
      ensures Valid() && PlayersTrace(t, chs) && t[0] == old(View())
      ensures ok ==> |chs| == MAX_PLAYERS && t[MAX_PLAYERS] == View()
      ensures !ok ==> Leaves(t[|chs|], |chs|, ch)
    {
      t, chs, ch := [View()], [], Choice(None, None);
      var p := 0;
      while p < MAX_PLAYERS
        invariant Valid() && p <= MAX_PLAYERS && |chs| == p
        invariant PlayersTrace(t, chs) && t[0] == old(View()) && t[p] == View()
      {
        RoomForNext(t, chs);
        assert changelog.size == |View().log|;
        ok, ch := ProcessPlayer(p);
        if !ok {
          return;
        }
        ExtendTrace(t, chs, ch, View());
        t, chs := t + [View()], chs + [ch];
        p := p + 1;
      }
      ok := true;
    }

    /** Clears the changelog and the accumulators. */
    method Open()
      requires Valid()
      modifies this, changelog
      ensures Valid() && View() == Opened(old(View()))
    {
      changelog.Clear();
      fruitsEaten, playerDied, noPlayerAlive := 0, false, true;
    }

    /** The last loop of server_tick: one fruit for each fruit eaten. */
    method RefillFruits() returns (ghost u: seq<State>, ghost picks: seq<Option<Coord>>)
      requires Valid() && Budget.Owed(View()) <= MAX_CHANGELOG_SIZE
      modifies map_.tiles, changelog, changelog.changes
      ensures Valid() && FruitsTrace(u, picks) && |picks| == old(fruitsEaten)
      ensures u[0] == old(View()) && u[|picks|] == View()
    {
      u, picks := [View()], [];
      var i := 0;
      while i < fruitsEaten
        invariant Valid() && i <= fruitsEaten == View().eaten && |picks| == i
        invariant FruitsTrace(u, picks) && u[0] == old(View()) && u[i] == View()
        invariant |View().log| + (View().eaten - i) <= MAX_CHANGELOG_SIZE
      {
        assert changelog.size == |View().log|;
        ghost var pick := SpawnFruit();
        ExtendFruits(u, picks, pick, View());
        u, picks := u + [View()], picks + [pick];
        i := i + 1;
      }
    }

    /** server_tick: one whole tick, or the first part of one up to the exit. From well-formed
        snakes it does not exit. */
    method Tick() returns (ok: bool, running: bool, ghost t: seq<State>, ghost chs: seq<Choice>, ghost ch: Choice,
                           ghost u: seq<State>, ghost picks: seq<Option<Coord>>)
      requires Valid() && Addressable(View()) && Budget.Ample(View())
      modifies this, map_.tiles, changelog, changelog.changes, manager.players, cache.head, cache.tail
      ensures Valid() && PlayersTrace(t, chs) && t[0] == Opened(old(View()))
      ensures ok ==> TickPlayers(old(View()), t, chs) && TickField(t[MAX_PLAYERS], u, picks)
      ensures ok ==> View() == u[|picks|] && running == !View().noneAlive
      ensures !ok ==> Leaves(t[|chs|], |chs|, ch)
      ensures Snakes(old(View())) ==> ok
    {
      Open();
      ok, t, chs, ch := ProcessPlayers();
      if !ok {
        NoWayOut(old(View()), t, chs, ch);
        running, u, picks := false, [], [];
        return;
      }
      Budget.AmpleLeavesRoom(old(View()), t, chs);
      u, picks := FinishField();
      running := !noPlayerAlive;
    }

    /** The sweep and the new fruits. */
    method FinishField() returns (ghost u: seq<State>, ghost picks: seq<Option<Coord>>)
      requires Valid() && Budget.Owed(View()) + |Budget.DeadTiles(View().grid)| <= MAX_CHANGELOG_SIZE
      modifies map_.tiles, changelog, changelog.changes
      ensures Valid() && TickField(old(View()), u, picks) && View() == u[|picks|]
    {
      Budget.SweptCost(View());
      ghost var s := View();
      assert Budget.DeadFrom(s.grid, 0, 0) == Budget.DeadTiles(s.grid);
      if playerDied {
        SweepField();
      }
      assert View() == Swept(s);
      u, picks := RefillFruits();
    }
  }

  /** The log has room for one more player. */
  lemma RoomForNext(t: seq<State>, chs: seq<Choice>)
    requires PlayersTrace(t, chs) && |chs| < MAX_PLAYERS && Addressable(t[0]) && Budget.Owed(t[0]) == 0
    ensures Addressable(t[|chs|]) && |t[|chs|].log| + 3 <= MAX_CHANGELOG_SIZE
  {
    TraceKeepsAddressable(t, chs, |chs|);
    Budget.TraceCost(t, chs, |chs|);
    Budget.LivingBound(t[|chs|].players, |chs|);
  }

  lemma NoWayOut(s: State, t: seq<State>, chs: seq<Choice>, ch: Choice)
    requires PlayersTrace(t, chs) && t[0] == Opened(s) && Leaves(t[|chs|], |chs|, ch)
    ensures !Snakes(s)
  {
    if bs :| Inv(s, bs, 0) {
      OpenedKeepsInv(s, bs);
      TraceNeverExits(t, chs, bs, ch);
      assert false;
    }
  }
}
