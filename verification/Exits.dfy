/** Ticks from any state with possible lookups: when the process exits (server/server.c). */
module Exits {
  import opened Torus
  import opened Field
  import opened Options
  import opened Changes
  import opened Engine
  import opened Chains
  import opened Ticks
  import Flood

  /** Player p is about to move without growing onto a tile that does not touch its cached tail,
      and no neighbour of that tail belongs to p. */
  ghost predicate Stranded(s: State, p: nat)
    requires Addressable(s) && p < MAX_PLAYERS
  {
    && s.players[p].status == Playing
    && MayAdvance(s, p, NextHead(s, p))
    && !Adjacent(s.grid.dims, NextHead(s, p), s.tail[p])
    && forall d :: !Owned(s.grid, p, Move(s.grid.dims, s.tail[p], d))
  }

  /** With these picks the process exits when player p is processed. */
  ghost predicate Leaves(s: State, p: nat, ch: Choice) {
    Addressable(s) && p < MAX_PLAYERS && Allowed(s, p, ch) && ProcessPlayer(s, p, ch) == None
  }

  /** After the head has moved to n, the neighbours of the tail tile that belong to p are those
      that did before, and n. */
  lemma OwnedAround(s: State, p: nat, n: Coord, g: Grid, d: Direction)
    requires Cached(s, p) && s.grid.dims.Has(n) && g.dims == s.grid.dims
    requires forall x :: x in s.grid.tiles ==> x in g.tiles && g.tiles[x] == AdvancedTile(s, p, n, x)
    ensures var x := Move(s.grid.dims, s.tail[p], d); Owned(g, p, x) <==> x == n || Owned(s.grid, p, x)
  {
    MoveFacts(s.grid.dims, s.tail[p], d, d);
  }

  /** The tail tile touches n exactly if n is its neighbour in some direction. */
  lemma Touching(m: Dims, tail: Coord, n: Coord)
    requires m.Has(tail) && m.Has(n)
    ensures Adjacent(m, n, tail) <==> exists d :: Move(m, tail, d) == n
  {
    if Adjacent(m, n, tail) {
      AdjacentSymmetric(m, n, tail);
    }
    forall d | Move(m, tail, d) == n ensures Adjacent(m, n, tail) {
      MoveFacts(m, tail, d, d);
    }
  }

  lemma AdvanceFailsIff(s: State, p: nat, n: Coord)
    requires Cached(s, p) && s.grid.dims.Has(n)
    ensures Advance(s, p, n).None? <==>
      !Adjacent(s.grid.dims, n, s.tail[p]) && forall d :: !Owned(s.grid, p, Move(s.grid.dims, s.tail[p], d))
  {
    var g, tail := ClearTail(MoveHead(s, p, n), p).grid, s.tail[p];
    AdvancedGrid(s, p, n);
    LowestNeighborComplete(g, p, tail);
    Touching(s.grid.dims, tail, n);
    forall d ensures Owned(g, p, Move(s.grid.dims, tail, d)) <==>
      Move(s.grid.dims, tail, d) == n || Owned(s.grid, p, Move(s.grid.dims, tail, d))
    {
      OwnedAround(s, p, n, g, d);
    }
  }

  lemma PlayExitsIff(s: State, p: nat)
    requires Addressable(s) && p < MAX_PLAYERS && s.players[p].status == Playing
    ensures Play(s, p) == None <==> Stranded(s, p)
  {
    PlayCases(s, p);
    if MayAdvance(s, p, NextHead(s, p)) {
      AdvanceFailsIff(s, p, NextHead(s, p));
    }
  }

  /** Processing a player exits exactly if the player is stranded. */
  lemma ExitIff(s: State, p: nat, ch: Choice)
    requires Addressable(s) && p < MAX_PLAYERS && Allowed(s, p, ch)
    ensures ProcessPlayer(s, p, ch) == None <==> Stranded(s, p)
  {
    if s.players[p].status == Playing {
      PlayExitsIff(s, p);
    }
  }

  /** What a step of player p leaves of the lookups: the other slots and caches, and the owner of
      every body tile that p has not taken. */
  ghost predicate Local(s: State, r: State, p: nat) {
    && s.Fit() && r.Fit() && p < MAX_PLAYERS && r.grid.dims == s.grid.dims
    && (forall q :: 0 <= q < MAX_PLAYERS && q != p ==>
          r.players[q] == s.players[q] && r.head[q] == s.head[q] && r.tail[q] == s.tail[q])
    && (forall c :: c in s.grid.tiles ==> LocalTile(s, r, p, c))
    && (Cached(s, p) || Alive(r.players[p].status) ==> Cached(r, p))
  }

  ghost predicate LocalTile(s: State, r: State, p: nat, c: Coord) {
    c in s.grid.tiles && c in r.grid.tiles &&
    (r.grid.tiles[c].kind == Body ==>
       (s.grid.tiles[c].kind == Body && r.grid.tiles[c].player == s.grid.tiles[c].player)
       || (r.grid.tiles[c].player == p && Cached(r, p)))
  }

  lemma LocalKeepsAddressable(s: State, r: State, p: nat)
    requires Addressable(s) && Local(s, r, p)
    ensures Addressable(r)
  {
    forall c | c in r.grid.tiles && r.grid.tiles[c].kind == Body
      ensures r.grid.tiles[c].player < MAX_PLAYERS && Cached(r, r.grid.tiles[c].player)
    {
      assert LocalTile(s, r, p, c);
    }
  }

  lemma MoveHeadIsLocal(s: State, p: nat, n: Coord)
    requires Cached(s, p) && s.grid.dims.Has(n)
    ensures Local(s, MoveHead(s, p, n), p)
  {
    var r := MoveHead(s, p, n);
    forall c | c in s.grid.tiles ensures LocalTile(s, r, p, c) {
    }
  }

  lemma AdvanceIsLocal(s: State, p: nat, n: Coord, r: State)
    requires Cached(s, p) && s.grid.dims.Has(n) && Advance(s, p, n) == Some(r)
    ensures Local(s, r, p) && r.players == s.players
  {
    AdvancedGrid(s, p, n);
    forall c | c in s.grid.tiles ensures LocalTile(s, r, p, c) {
      assert r.grid.tiles[c] == AdvancedTile(s, p, n, c);
    }
  }

  lemma KillIsLocal(s: State, p: nat)
    requires Cached(s, p)
    ensures Local(s, Kill(s, p), p)
  {
    var r := Kill(s, p);
    forall c | c in s.grid.tiles ensures LocalTile(s, r, p, c) {
      Flood.FloodIsExact(s.grid, p, s.head[p], c);
    }
  }

  lemma PlayIsLocal(s: State, p: nat)
    requires Addressable(s) && p < MAX_PLAYERS && s.players[p].status == Playing && Play(s, p).Some?
    ensures Local(s, Play(s, p).value, p)
  {
    var n := NextHead(s, p);
    PlayCases(s, p);
    if MayAdvance(s, p, n) {
      AdvanceIsLocal(s, p, n, Play(s, p).value);
    } else if s.grid.tiles[n].kind == Fruit {
      MoveHeadIsLocal(s, p, n);
    } else {
      KillIsLocal(s, p);
    }
  }

  lemma SpawnIsLocal(s: State, p: nat, h: Coord)
    requires s.Fit() && p < MAX_PLAYERS && s.grid.dims.Has(h) && SpawnSpot(s.grid, h)
    ensures Local(s, Spawn(s, p, h), p)
  {
    var r := Spawn(s, p, h);
    forall c | c in s.grid.tiles ensures LocalTile(s, r, p, c) {
    }
  }

  lemma FruitIsLocal(s: State, a: State, p: nat, pick: Option<Coord>)
    requires Local(s, a, p) && (pick.Some? ==> pick.value in a.grid.tiles)
    ensures Local(s, SpawnFruit(a, pick), p)
  {
    var r := SpawnFruit(a, pick);
    forall c | c in s.grid.tiles ensures LocalTile(s, r, p, c) {
      assert LocalTile(s, a, p, c);
    }
  }

  /** A change of the slot alone. */
  lemma SlotIsLocal(s: State, r: State, p: nat)
    requires s.Fit() && p < MAX_PLAYERS && r.Fit()
    requires r.grid == s.grid && r.head == s.head && r.tail == s.tail
    requires forall q :: 0 <= q < MAX_PLAYERS && q != p ==> r.players[q] == s.players[q]
    requires Alive(r.players[p].status) ==> Cached(s, p)
    ensures Local(s, r, p)
  {
    forall c | c in s.grid.tiles ensures LocalTile(s, r, p, c) {
    }
  }

  /** The accumulators do not matter. */
  lemma LocalAlike(s: State, a: State, r: State, p: nat)
    requires Local(s, a, p) && r.grid == a.grid && r.players == a.players && r.head == a.head && r.tail == a.tail
    ensures Local(s, r, p)
  {
    forall c | c in s.grid.tiles ensures LocalTile(s, r, p, c) {
      assert LocalTile(s, a, p, c);
    }
  }

  lemma JoinIsLocal(s: State, p: nat, ch: Choice)
    requires s.Fit() && p < MAX_PLAYERS && Waiting(s.players[p].status) && Allowed(s, p, ch)
    ensures Local(s, Join(s, p, ch), p)
  {
    if ch.spawn.Some? {
      var a := Spawn(s, p, ch.spawn.value);
      SpawnIsLocal(s, p, ch.spawn.value);
      if s.players[p].status == Joining {
        FruitIsLocal(s, a, p, ch.fruit);
        LocalAlike(s, SpawnFruit(a, ch.fruit), Join(s, p, ch), p);
      } else {
        LocalAlike(s, a, Join(s, p, ch), p);
      }
    } else {
      SlotIsLocal(s, Join(s, p, ch), p);
    }
  }

  lemma SurvivorIsLocal(s: State, p: nat, r: State)
    requires Addressable(s) && p < MAX_PLAYERS && s.players[p].status == Playing && Survived(Play(s, p), p) == Some(r)
    ensures Local(s, r, p)
  {
    PlayIsLocal(s, p);
    LocalAlike(s, Play(s, p).value, r, p);
  }

  lemma LeavingIsLocal(s: State, p: nat)
    requires Cached(s, p)
    ensures Local(s, Kill(s, p).SetStatus(p, NotConnected), p)
  {
    KillIsLocal(s, p);
    var a, r := Kill(s, p), Kill(s, p).SetStatus(p, NotConnected);
    forall c | c in s.grid.tiles ensures LocalTile(s, r, p, c) {
      assert LocalTile(s, a, p, c);
    }
  }

  /** No step, of a well-formed snake or not, touches another slot or loses a lookup. */
  lemma StepIsLocal(s: State, p: nat, ch: Choice, r: State)
    requires Step(s, p, ch, r)
    ensures Local(s, r, p) && Addressable(r)
  {
    match s.players[p].status {
      case Playing => SurvivorIsLocal(s, p, r);
      case Joining | Respawning => JoinIsLocal(s, p, ch);
      case Disconnecting => LeavingIsLocal(s, p);
      case _ => SlotIsLocal(s, r, p);
    }
    LocalKeepsAddressable(s, r, p);
  }

  lemma {:induction false} TraceKeepsAddressable(t: seq<State>, chs: seq<Choice>, i: nat)
    requires PlayersTrace(t, chs) && Addressable(t[0]) && i < |t|
    ensures Addressable(t[i])
  {
    if i > 0 {
      assert Step(t[i - 1], i - 1, chs[i - 1], t[i - 1 + 1]);
      StepIsLocal(t[i - 1], i - 1, chs[i - 1], t[i]);
    }
  }

  lemma {:induction false} TraceKeepsDims(t: seq<State>, chs: seq<Choice>, i: nat)
    requires PlayersTrace(t, chs) && t[0].Fit() && i < |t|
    ensures t[i].Fit() && t[i].grid.dims == t[0].grid.dims
  {
    if i > 0 {
      TraceKeepsDims(t, chs, i - 1);
      assert Step(t[i - 1], i - 1, chs[i - 1], t[i - 1 + 1]);
      StepIsLocal(t[i - 1], i - 1, chs[i - 1], t[i]);
    }
  }

  /** Nor does the rest of the tick. */
  lemma FieldKeepsAddressable(s: State, u: seq<State>, picks: seq<Option<Coord>>)
    requires Addressable(s) && TickField(s, u, picks)
    ensures Addressable(u[|picks|]) && u[|picks|].players == s.players
  {
    SweepFacts(s, 0, 0);
    RefillsSame(u, picks, |picks|);
  }
}
