/** Fruits, walls and lengths (server/server.c). */
module Conservation {
  import opened Torus
  import opened Field
  import opened Options
  import opened Changes
  import opened Engine
  import opened Chains
  import opened Ticks

  ghost function Fruits(g: Grid): set<Coord> {
    set c | c in g.tiles && g.tiles[c].kind == Fruit
  }

  ghost function Walls(g: Grid): set<Coord> {
    set c | c in g.tiles && g.tiles[c].kind == Wall
  }

  ghost predicate NoEmpty(g: Grid) {
    forall c :: c in g.tiles ==> g.tiles[c].kind != Empty
  }

  /** The fruits on the field and those eaten in this tick, which are owed to it. */
  ghost function Stock(s: State): nat {
    |Fruits(s.grid)| + s.eaten
  }

  /** A joining player that finds a place brings a fruit, if there is an empty tile left for it. */
  function Brought(s: State, p: nat, ch: Choice): nat
    requires p < |s.players|
  {
    if s.players[p].status == Joining && ch.spawn.Some? && ch.fruit.Some? then 1 else 0
  }

  /** What a step does to fruits and walls: `brought` fruits are new, fruits eaten are counted,
      walls stay. */
  ghost predicate Kept(s: State, r: State, brought: nat) {
    Stock(r) == Stock(s) + brought && Walls(r.grid) == Walls(s.grid)
  }

  lemma AdvancedKeeps(s: State, p: nat, n: Coord, r: State)
    requires Addressable(s) && p < MAX_PLAYERS && s.players[p].status == Playing
    requires n in s.grid.tiles && MayAdvance(s, p, n)
    requires r.grid.Valid() && r.grid.dims == s.grid.dims && r.eaten == s.eaten
    requires forall x :: x in s.grid.tiles ==> r.grid.tiles[x] == AdvancedTile(s, p, n, x)
    ensures Kept(s, r, 0)
  {
    forall x | x in s.grid.tiles
      ensures IsKind(r.grid, x, Fruit) <==> IsKind(s.grid, x, Fruit)
      ensures IsKind(r.grid, x, Wall) <==> IsKind(s.grid, x, Wall)
    {
      assert r.grid.tiles[x] == AdvancedTile(s, p, n, x);
    }
    assert Fruits(r.grid) == Fruits(s.grid) && Walls(r.grid) == Walls(s.grid);
  }

  lemma AdvanceKeeps(s: State, p: nat, n: Coord, r: State)
    requires Addressable(s) && p < MAX_PLAYERS && s.players[p].status == Playing
    requires n in s.grid.tiles && MayAdvance(s, p, n) && Advance(s, p, n) == Some(r)
    ensures Kept(s, r, 0)
  {
    AdvancedGrid(s, p, n);
    AdvancedKeeps(s, p, n, r);
  }

  lemma EatKeeps(s: State, p: nat, n: Coord)
    requires Cached(s, p) && s.grid.dims.Has(n) && s.grid.tiles[n].kind == Fruit
    ensures Kept(s, Ate(MoveHead(s, p, n)), 0)
  {
    assert Fruits(MoveHead(s, p, n).grid) == Fruits(s.grid) - {n};
  }

  lemma KillKeeps(s: State, p: nat, r: State)
    requires Cached(s, p) && r.grid == Kill(s, p).grid && r.eaten == s.eaten
    ensures Kept(s, r, 0)
  {
    assert Fruits(r.grid) == Fruits(s.grid);
  }

  lemma PlayKeeps(s: State, p: nat)
    requires Addressable(s) && p < MAX_PLAYERS && s.players[p].status == Playing && Play(s, p).Some?
    ensures Kept(s, Play(s, p).value, 0)
  {
    var n := NextHead(s, p);
    PlayCases(s, p);
    if MayAdvance(s, p, n) {
      AdvanceKeeps(s, p, n, Play(s, p).value);
    } else if s.grid.tiles[n].kind == Fruit {
      EatKeeps(s, p, n);
    } else {
      KillKeeps(s, p, Play(s, p).value);
    }
  }

  lemma FruitKeeps(s: State, pick: Option<Coord>)
    requires s.grid.Valid() && Picked(s.grid, FreeSpot, pick)
    ensures Walls(SpawnFruit(s, pick).grid) == Walls(s.grid)
    ensures |Fruits(SpawnFruit(s, pick).grid)| == |Fruits(s.grid)| + if pick.Some? then 1 else 0
  {
    if pick.Some? {
      assert Fruits(SpawnFruit(s, pick).grid) == Fruits(s.grid) + {pick.value};
    }
  }

  lemma SpawnKeeps(s: State, p: nat, h: Coord)
    requires s.Fit() && p < MAX_PLAYERS && s.grid.dims.Has(h) && SpawnSpot(s.grid, h)
    ensures Kept(s, Spawn(s, p, h), 0)
  {
    EmptyNeighborComplete(s.grid, h);
    assert Fruits(Spawn(s, p, h).grid) == Fruits(s.grid);
  }

  lemma JoinKeeps(s: State, p: nat, ch: Choice)
    requires s.Fit() && p < MAX_PLAYERS && Waiting(s.players[p].status) && Allowed(s, p, ch)
    ensures Kept(s, Join(s, p, ch), Brought(s, p, ch))
  {
    if ch.spawn.Some? {
      SpawnKeeps(s, p, ch.spawn.value);
      if s.players[p].status == Joining {
        FruitKeeps(Spawn(s, p, ch.spawn.value), ch.fruit);
      }
    }
  }

  /** Fruits come only with players that join. */
  lemma StepKeeps(s: State, p: nat, ch: Choice, r: State)
    requires Step(s, p, ch, r)
    ensures Kept(s, r, Brought(s, p, ch))
  {
    match s.players[p].status
    case Playing => PlayKeeps(s, p);
    case Disconnecting => KillKeeps(s, p, r);
    case Joining | Respawning => JoinKeeps(s, p, ch);
    case _ =>
  }

  /** The fruits brought by the first i players. */
  ghost function BroughtBy(t: seq<State>, chs: seq<Choice>, i: nat): nat
    requires PlayersTrace(t, chs) && i <= |chs|
  {
    if i == 0 then 0
    else
      assert Step(t[i - 1], i - 1, chs[i - 1], t[i - 1 + 1]);
      BroughtBy(t, chs, i - 1) + Brought(t[i - 1], i - 1, chs[i - 1])
  }

  lemma {:induction false} TraceKeeps(t: seq<State>, chs: seq<Choice>, i: nat)
    requires PlayersTrace(t, chs) && i < |t|
    ensures Kept(t[0], t[i], BroughtBy(t, chs, i))
  {
    if i > 0 {
      TraceKeeps(t, chs, i - 1);
      assert Step(t[i - 1], i - 1, chs[i - 1], t[i - 1 + 1]);
      StepKeeps(t[i - 1], i - 1, chs[i - 1], t[i]);
      KeptTwice(t[0], t[i - 1], t[i], BroughtBy(t, chs, i - 1), Brought(t[i - 1], i - 1, chs[i - 1]));
    }
  }

  lemma KeptTwice(a: State, b: State, c: State, m: nat, n: nat)
    requires Kept(a, b, m) && Kept(b, c, n)
    ensures Kept(a, c, m + n)
  {
  }

  /** Each fruit to be spawned either appears or finds no empty tile, now or later in the tick. */
  lemma {:induction false} RefillsKeep(t: seq<State>, picks: seq<Option<Coord>>, i: nat)
    requires FruitsTrace(t, picks) && i < |t|
    ensures Walls(t[i].grid) == Walls(t[0].grid)
    ensures |Fruits(t[i].grid)| <= |Fruits(t[0].grid)| + i
    ensures |Fruits(t[i].grid)| == |Fruits(t[0].grid)| + i || (i > 0 && NoEmpty(t[i].grid))
  {
    if i > 0 {
      RefillsKeep(t, picks, i - 1);
      assert Refill(t[i - 1], picks[i - 1], t[i - 1 + 1]);
      FruitKeeps(t[i - 1], picks[i - 1]);
    }
  }

  /** After a tick there are exactly as many fruits as before and as joining players have brought,
      or no tile is empty and there are no more; every wall is where it was. */
  lemma FruitsAndWallsKept(s: State, t: seq<State>, chs: seq<Choice>, players: seq<Player>,
                           u: seq<State>, picks: seq<Option<Coord>>)
    requires s.Fit() && TickPlayers(s, t, chs) && |players| == MAX_PLAYERS
    requires TickField(t[MAX_PLAYERS].(players := players), u, picks)
    ensures var before, after := |Fruits(s.grid)| + BroughtBy(t, chs, MAX_PLAYERS), |Fruits(u[|picks|].grid)|;
      after == before || (after < before && NoEmpty(u[|picks|].grid))
    ensures Walls(u[|picks|].grid) == Walls(s.grid)
  {
    var r := t[MAX_PLAYERS].(players := players);
    TraceFits(t, chs, MAX_PLAYERS);
    TraceKeeps(t, chs, MAX_PLAYERS);
    SweepFacts(r, 0, 0);
    assert Fruits(Swept(r).grid) == Fruits(r.grid);
    assert Walls(Swept(r).grid) == Walls(r.grid);
    RefillsKeep(u, picks, |picks|);
  }

  lemma PlayMoves(s: State, p: nat, bs: seq<seq<Coord>>)
    requires Inv(s, bs, p) && p < MAX_PLAYERS && Addressable(s) && s.players[p].status == Playing
    requires Play(s, p).Some? && Alive(Play(s, p).value.players[p].status)
    ensures var r := Play(s, p).value;
      && r.head[p] == NextHead(s, p)
      && (r.eaten > s.eaten <==> IsKind(s.grid, NextHead(s, p), Fruit))
  {
    PlayCases(s, p);
    if MayAdvance(s, p, NextHead(s, p)) {
      AdvanceFindsTail(s, p, bs, NextHead(s, p));
    }
  }

  /** The body of p after its step, for a snake that plays on. */
  lemma StepMoves(s: State, p: nat, bs: seq<seq<Coord>>, ch: Choice, r: State)
    requires Inv(s, bs, p) && Step(s, p, ch, r) && s.players[p].status == Playing
    requires r.Fit() && Alive(r.players[p].status)
    ensures |bs[p]| >= 2 && NextBody(s, r, p, bs[p]) == (if r.eaten > s.eaten then bs[p] else bs[p][1..]) + [r.head[p]]
    ensures r.eaten > s.eaten <==> IsKind(s.grid, NextHead(s, p), Fruit)
    ensures r.head[p] == NextHead(s, p)
  {
    assert BodyOf(s, p, bs[p], p);
    PlayMoves(s, p, bs);
  }

  lemma PausedStays(s: State, p: nat, ch: Choice, r: State, b: seq<Coord>)
    requires Step(s, p, ch, r) && s.players[p].status == Paused && b != []
    ensures r.Fit() && NextBody(s, r, p, b) == b
  {
  }

  lemma DisconnectingDies(s: State, p: nat, ch: Choice, r: State)
    requires Step(s, p, ch, r) && s.players[p].status == Disconnecting
    ensures r.Fit() && !Alive(r.players[p].status)
  {
  }

  /** In a tick without a hazard, a snake that survives either is paused and does not change at
      all, or moves one tile in its direction: its body gains the tile ahead of its head, and
      loses its tail unless that tile was a fruit. */
  lemma LengthsKept(s: State, t: seq<State>, chs: seq<Choice>, bs: seq<seq<Coord>>, p: nat)
    requires Inv(s, bs, 0) && TickPlayers(s, t, chs) && HazardFree(t) && p < MAX_PLAYERS
    requires Alive(s.players[p].status)
    requires t[MAX_PLAYERS].Fit() && Alive(t[MAX_PLAYERS].players[p].status)
    ensures forall j :: 0 <= j < |t| ==> t[j].Fit()
    ensures Cached(s, p) && |bs[p]| >= 2 && Inv(t[MAX_PLAYERS], Bodies(t, bs, MAX_PLAYERS), 0)
    ensures s.players[p].status == Playing || s.players[p].status == Paused
    ensures Bodies(t, bs, MAX_PLAYERS)[p] ==
      if s.players[p].status == Paused then bs[p]
      else (if IsKind(t[p].grid, NextHead(s, p), Fruit) then bs[p] else bs[p][1..]) + [NextHead(s, p)]
  {
    AliveHasBody(s, p, bs, 0);
    TickBodies(s, t, chs, bs);
    OpenedKeepsInv(s, bs);
    UntouchedBetween(t, chs, bs, p, 0, p);
    UntouchedBetween(t, chs, bs, p, p + 1, MAX_PLAYERS);
    TraceKeepsInv(t, chs, bs, p);
    assert Step(t[p], p, chs[p], t[p + 1]);
    DimsStay(t, chs, bs, p);
    if s.players[p].status == Playing {
      StepMoves(t[p], p, Bodies(t, bs, p), chs[p], t[p + 1]);
    } else if s.players[p].status == Paused {
      PausedStays(t[p], p, chs[p], t[p + 1], bs[p]);
    } else {
      DisconnectingDies(t[p], p, chs[p], t[p + 1]);
    }
  }
}
