/** Who survives: what becomes of each slot when its player is processed (server/server.c). */
module Survival {
  import opened Torus
  import opened Field
  import opened Options
  import opened Changes
  import opened Engine
  import opened Chains
  import opened Ticks
  import opened Exits

  /** The tile a playing snake is about to enter. */
  function Ahead(s: State, p: nat): Coord
    requires Cached(s, p)
  {
    Move(s.grid.dims, s.head[p], s.players[p].direction)
  }

  /** The tile ahead is empty or a fruit, the snake's own tail, or the tail of a later snake that
      is not paused and looks at an empty tile. */
  ghost predicate WayIsFree(s: State, p: nat)
    requires Addressable(s) && Cached(s, p)
  {
    var n := Ahead(s, p);
    var tile := s.grid.tiles[n];
    || tile.kind == Empty
    || tile.kind == Fruit
    || (tile.kind == Body && tile.player == p && n == s.tail[p])
    || (tile.kind == Body && tile.player > p && n == s.tail[tile.player]
        && s.players[tile.player].status != Paused && s.grid.tiles[Ahead(s, tile.player)].kind == Empty)
  }

  /** The same for well-formed snakes, in which every body tile belongs to a living player. */
  ghost predicate WayIsSafe(s: State, p: nat)
    requires Addressable(s) && Cached(s, p)
  {
    var n := Ahead(s, p);
    || s.grid.tiles[n].kind in {Empty, Fruit}
    || (n == s.tail[p] && Owned(s.grid, p, n))
    || exists q :: p < q < MAX_PLAYERS && LetsThrough(s, q, n)
  }

  /** Tile n is the tail of snake q, which is about to leave it. */
  ghost predicate LetsThrough(s: State, q: nat, n: Coord) {
    && Cached(s, q) && n == s.tail[q] && Owned(s.grid, q, n)
    && (s.players[q].status == Playing || s.players[q].status == Disconnecting)
    && IsKind(s.grid, Ahead(s, q), Empty)
  }

  lemma FreeIffSafe(s: State, p: nat, bs: seq<seq<Coord>>)
    requires Inv(s, bs, p) && Addressable(s) && Cached(s, p)
    ensures WayIsFree(s, p) <==> WayIsSafe(s, p)
  {
    var n := Ahead(s, p);
    var tile := s.grid.tiles[n];
    if tile.kind == Body {
      var q := tile.player;
      var i := OwnTileInBody(s, bs, p, q, n);
      if WayIsFree(s, p) && q != p {
        assert LetsThrough(s, q, n);
      }
    }
  }

  /** A playing snake that is processed plays on exactly if its way is free, and otherwise dies. */
  lemma SurvivesIff(s: State, p: nat, ch: Choice, r: State)
    requires Step(s, p, ch, r) && s.players[p].status == Playing
    ensures r.Fit()
    ensures r.players[p] == if WayIsFree(s, p) then s.players[p] else s.players[p].(status := PlayerDead)
    ensures WayIsFree(s, p) ==> r.head[p] == Ahead(s, p)
  {
    PlayCases(s, p);
    FreeMeansAdvanceOrEat(s, p);
    if MayAdvance(s, p, NextHead(s, p)) {
      AdvanceMovesHead(s, p, NextHead(s, p), Play(s, p).value);
    }
  }

  lemma AdvanceMovesHead(s: State, p: nat, n: Coord, r: State)
    requires Cached(s, p) && s.grid.dims.Has(n) && Advance(s, p, n) == Some(r)
    ensures r.players == s.players && r.head[p] == n
  {
  }

  lemma FreeMeansAdvanceOrEat(s: State, p: nat)
    requires Addressable(s) && p < MAX_PLAYERS && s.players[p].status == Playing
    ensures var n := NextHead(s, p); WayIsFree(s, p) <==> MayAdvance(s, p, n) || s.grid.tiles[n].kind == Fruit
  {
  }

  /** A tile where a snake can be put: empty, with an empty neighbour. */
  ghost predicate HasRoom(g: Grid) {
    exists c, d :: g.dims.Has(c) && IsKind(g, c, Empty) && IsKind(g, Move(g.dims, c, d), Empty)
  }

  lemma JoinsIff(s: State, p: nat, ch: Choice, r: State)
    requires Step(s, p, ch, r) && Waiting(s.players[p].status)
    ensures r.Fit() && r.players[p].status == if HasRoom(s.grid) then Playing else PlayerDead
  {
    if ch.spawn.None? {
      forall c, d | s.grid.dims.Has(c) && IsKind(s.grid, c, Empty)
        ensures !IsKind(s.grid, Move(s.grid.dims, c, d), Empty)
      {
        EmptyNeighborComplete(s.grid, c);
        assert !SpawnSpot(s.grid, c);
      }
    } else {
      EmptyNeighborComplete(s.grid, ch.spawn.value);
    }
  }

  /** What processing makes of the slot of the player processed. */
  lemma SlotAfter(s: State, p: nat, ch: Choice, r: State)
    requires Step(s, p, ch, r)
    ensures r.Fit()
    ensures match s.players[p].status
      case Playing => r.players[p] == if WayIsFree(s, p) then s.players[p] else s.players[p].(status := PlayerDead)
      case Joining | Respawning => r.players[p].status == if HasRoom(s.grid) then Playing else PlayerDead
      case Disconnecting => r.players[p] == s.players[p].(status := NotConnected)
      case _ => r.players[p] == s.players[p]
    ensures s.players[p].status == Playing && WayIsFree(s, p) ==> r.head[p] == Ahead(s, p)
    ensures s.players[p].status == Paused ==> r.head[p] == s.head[p] && r.tail[p] == s.tail[p]
  {
    match s.players[p].status
    case Playing => SurvivesIff(s, p, ch, r);
    case Joining | Respawning => JoinsIff(s, p, ch, r);
    case _ =>
  }

  /** While others are processed, nothing happens to a slot and its caches. */
  lemma {:induction false} SlotRests(t: seq<State>, chs: seq<Choice>, q: nat, i: nat, j: nat)
    requires PlayersTrace(t, chs) && Addressable(t[0]) && i <= j < |t| && q < MAX_PLAYERS && (q < i || j <= q)
    ensures t[i].Fit() && t[j].Fit() && t[j].grid.dims == t[i].grid.dims
    ensures t[j].players[q] == t[i].players[q] && t[j].head[q] == t[i].head[q] && t[j].tail[q] == t[i].tail[q]
    decreases j
  {
    TraceKeepsAddressable(t, chs, i);
    if i < j {
      SlotRests(t, chs, q, i, j - 1);
      assert Step(t[j - 1], j - 1, chs[j - 1], t[j - 1 + 1]);
      StepIsLocal(t[j - 1], j - 1, chs[j - 1], t[j]);
    }
  }

  /** What a tick makes of every slot, well-formed snakes or not: it depends on the field when the
      turn of the player comes; until then and from then on the slot stays as it is. */
  lemma WhoSurvivesTick(s: State, t: seq<State>, chs: seq<Choice>, q: nat)
    requires Addressable(s) && TickPlayers(s, t, chs) && q < MAX_PLAYERS
    ensures Addressable(t[q]) && t[MAX_PLAYERS].Fit() && t[q].grid.dims == s.grid.dims
    ensures t[q].players[q] == s.players[q] && t[q].head[q] == s.head[q] && t[q].tail[q] == s.tail[q]
    ensures var after := t[MAX_PLAYERS].players[q];
      match s.players[q].status
      case Playing => after == if WayIsFree(t[q], q) then s.players[q] else s.players[q].(status := PlayerDead)
      case Joining | Respawning => after.status == if HasRoom(t[q].grid) then Playing else PlayerDead
      case Disconnecting => after == s.players[q].(status := NotConnected)
      case _ => after == s.players[q]
    ensures s.players[q].status == Playing && WayIsFree(t[q], q) ==> t[MAX_PLAYERS].head[q] == Ahead(t[q], q)
    ensures s.players[q].status == Paused ==>
      t[MAX_PLAYERS].head[q] == s.head[q] && t[MAX_PLAYERS].tail[q] == s.tail[q]
  {
    TraceKeepsAddressable(t, chs, q);
    SlotRests(t, chs, q, 0, q);
    SlotRests(t, chs, q, q + 1, MAX_PLAYERS);
    assert Step(t[q], q, chs[q], t[q + 1]);
    SlotAfter(t[q], q, chs[q], t[q + 1]);
  }

  /** In a tick from well-formed snakes a playing snake survives exactly if its way is safe when
      its turn comes. */
  lemma WhoSurvivesAmongSnakes(s: State, t: seq<State>, chs: seq<Choice>, q: nat)
    requires Snakes(s) && TickPlayers(s, t, chs) && q < MAX_PLAYERS
    requires s.Fit() && s.players[q].status == Playing
    ensures Addressable(t[q]) && Cached(t[q], q) && t[MAX_PLAYERS].Fit()
    ensures Alive(t[MAX_PLAYERS].players[q].status) <==> WayIsSafe(t[q], q)
  {
    var bs :| Inv(s, bs, 0);
    InvAddressable(s, bs, 0);
    OpenedKeepsInv(s, bs);
    WhoSurvivesTick(s, t, chs, q);
    TraceKeepsInv(t, chs, bs, q);
    FreeIffSafe(t[q], q, Bodies(t, bs, q));
  }
}
