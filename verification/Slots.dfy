/** What is left of a player when its slot is handed out again. The slot locks are released before
    the dead tiles are swept, so a client may register in between (server/server.c,
    libsnake/player/player_manager.c). */
module SlotWindow {
  import opened Torus
  import opened Field
  import opened Changes
  import opened Engine
  import opened Chains
  import opened Ticks
  import opened Runs

  /** Some dead tile carries the number of player p. */
  ghost predicate DeadOf(g: Grid, p: nat) {
    exists c :: IsDeadOf(g, c, p)
  }

  ghost predicate IsDeadOf(g: Grid, c: Coord, p: nat) {
    c in g.tiles && g.tiles[c].kind == Dead && g.tiles[c].player == p
  }

  /** The same tiles are dead, with the same numbers. */
  ghost predicate SameDead(g: Grid, h: Grid) {
    forall c, p :: IsDeadOf(g, c, p) <==> IsDeadOf(h, c, p)
  }

  lemma SameDeadOf(g: Grid, h: Grid, p: nat)
    requires SameDead(g, h)
    ensures DeadOf(g, p) <==> DeadOf(h, p)
  {
    if c :| IsDeadOf(g, c, p) {
      assert IsDeadOf(h, c, p);
    }
    if c :| IsDeadOf(h, c, p) {
      assert IsDeadOf(g, c, p);
    }
  }

  lemma AdvancedSameDead(s: State, p: nat, n: Coord, g: Grid)
    requires Addressable(s) && p < MAX_PLAYERS && s.players[p].status == Playing
    requires n in s.grid.tiles && MayAdvance(s, p, n) && g.Valid() && g.dims == s.grid.dims
    requires forall x :: x in s.grid.tiles ==> g.tiles[x] == AdvancedTile(s, p, n, x)
    ensures SameDead(s.grid, g)
  {
    forall c, q ensures IsDeadOf(s.grid, c, q) <==> IsDeadOf(g, c, q) {
      if c in s.grid.tiles {
        assert g.tiles[c] == AdvancedTile(s, p, n, c);
      }
    }
  }

  lemma AdvanceSameDead(s: State, p: nat, bs: seq<seq<Coord>>, n: Coord)
    requires Inv(s, bs, p) && p < MAX_PLAYERS && s.players[p].status == Playing
    requires Addressable(s) && n in s.grid.tiles && MayAdvance(s, p, n)
    ensures Advance(s, p, n).Some? && SameDead(s.grid, Advance(s, p, n).value.grid)
    ensures Advance(s, p, n).value.players == s.players
  {
    AdvanceFindsTail(s, p, bs, n);
    AdvancedSameDead(s, p, n, Advance(s, p, n).value.grid);
  }

  lemma EatSameDead(s: State, p: nat, n: Coord)
    requires Cached(s, p) && s.grid.dims.Has(n) && s.grid.tiles[n].kind == Fruit
    ensures SameDead(s.grid, MoveHead(s, p, n).grid) && MoveHead(s, p, n).players == s.players
  {
  }

  lemma JoinSameDead(s: State, p: nat, ch: Choice)
    requires s.Fit() && p < MAX_PLAYERS && Waiting(s.players[p].status) && Allowed(s, p, ch)
    ensures SameDead(s.grid, Join(s, p, ch).grid)
  {
    if ch.spawn.Some? {
      EmptyNeighborComplete(s.grid, ch.spawn.value);
    }
  }

  /** A kill leaves dead tiles of its player and of nobody else. */
  lemma KillLeavesDead(s: State, p: nat, bs: seq<seq<Coord>>, q: nat)
    requires Inv(s, bs, p) && p < MAX_PLAYERS && Alive(s.players[p].status)
    ensures Cached(s, p) && (DeadOf(Kill(s, p).grid, q) <==> DeadOf(s.grid, q) || q == p)
  {
    KillTakesWholeBody(s, p, bs);
    assert BodyOf(s, p, bs[p], p);
    var g := Kill(s, p).grid;
    var head := bs[p][|bs[p]| - 1];
    assert Link(s, p, bs[p], |bs[p]| - 1);
    assert IsDeadOf(g, head, p);
    if c :| IsDeadOf(s.grid, c, q) {
      assert IsDeadOf(g, c, q);
    }
    if c :| IsDeadOf(g, c, q) {
      assert Owned(s.grid, p, c) || IsDeadOf(s.grid, c, q);
    }
  }

  lemma PlayDead(s: State, p: nat, bs: seq<seq<Coord>>, q: nat)
    requires Inv(s, bs, p) && p < MAX_PLAYERS && Addressable(s) && s.players[p].status == Playing
    ensures Play(s, p).Some? && Play(s, p).value.Fit()
    ensures var r := Play(s, p).value;
      DeadOf(r.grid, q) <==> DeadOf(s.grid, q) || (q == p && !Alive(r.players[p].status))
  {
    var n := NextHead(s, p);
    AliveHasBody(s, p, bs, p);
    PlayCases(s, p);
    if MayAdvance(s, p, n) {
      AdvanceSameDead(s, p, bs, n);
      SameDeadOf(s.grid, Advance(s, p, n).value.grid, q);
    } else if s.grid.tiles[n].kind == Fruit {
      EatSameDead(s, p, n);
      SameDeadOf(s.grid, MoveHead(s, p, n).grid, q);
    } else {
      KillLeavesDead(s, p, bs, q);
    }
  }

  /** Dead tiles of a player appear in the step in which it dies, and stay. */
  lemma StepDead(s: State, p: nat, bs: seq<seq<Coord>>, ch: Choice, r: State, q: nat)
    requires Inv(s, bs, p) && Step(s, p, ch, r)
    ensures r.Fit()
    ensures DeadOf(r.grid, q) <==>
      DeadOf(s.grid, q) || (q == p && Alive(s.players[p].status) && !Alive(r.players[p].status))
  {
    var status := s.players[p].status;
    if status == Playing {
      PlayDead(s, p, bs, q);
    } else if status == Disconnecting {
      KillLeavesDead(s, p, bs, q);
    } else if Waiting(status) {
      JoinSameDead(s, p, ch);
      SameDeadOf(s.grid, r.grid, q);
    }
  }

  lemma {:induction false} TraceDead(t: seq<State>, chs: seq<Choice>, bs: seq<seq<Coord>>, i: nat, q: nat)
    requires PlayersTrace(t, chs) && |chs| == MAX_PLAYERS && Inv(t[0], bs, 0) && NoDead(t[0].grid)
    requires i <= MAX_PLAYERS && q < MAX_PLAYERS
    ensures t[0].Fit() && t[i].Fit()
    ensures DeadOf(t[i].grid, q) <==> Alive(t[0].players[q].status) && !Alive(t[i].players[q].status)
  {
    TraceKeepsInv(t, chs, bs, i);
    if i > 0 {
      var p := i - 1;
      TraceDead(t, chs, bs, p, q);
      TraceKeepsInv(t, chs, bs, p);
      assert Step(t[p], p, chs[p], t[p + 1]);
      StepDead(t[p], p, Bodies(t, bs, p), chs[p], t[i], q);
      if q == p {
        UntouchedBetween(t, chs, bs, q, 0, p);
      } else {
        OtherUntouched(t[p], p, Bodies(t, bs, p), chs[p], q, t[i]);
      }
    }
  }

  /** When the slots are released, dead tiles of a player are left if and only if it was alive
      before the tick and is no longer. */
  lemma PlayersLeaveDead(s: State, t: seq<State>, chs: seq<Choice>, q: nat)
    requires Snakes(s) && NoDead(s.grid) && TickPlayers(s, t, chs) && q < MAX_PLAYERS
    ensures t[MAX_PLAYERS].Fit()
    ensures DeadOf(t[MAX_PLAYERS].grid, q) <==>
      Alive(s.players[q].status) && !Alive(t[MAX_PLAYERS].players[q].status)
  {
    var bs :| Inv(s, bs, 0);
    OpenedKeepsInv(s, bs);
    TraceDead(t, chs, bs, MAX_PLAYERS, q);
  }

  /** Between ticks a slot is handed out without any tile of its last player, alive or dead. */
  lemma RegisterBetweenTicksFindsNothing(gs: seq<Game>, es: seq<Event>, i: nat)
    requires Run(gs, es) && NoHazards(es) && i < |es| && es[i].Client? && es[i].op.Register? && !gs[i].sweeping
    ensures forall c :: c in gs[i].s.grid.tiles && gs[i].s.grid.tiles[c].player == es[i].p ==>
      gs[i].s.grid.tiles[c].kind != Body && gs[i].s.grid.tiles[c].kind != Dead
  {
    RunIsGood(gs, es, i);
    RegisterTakesFreeSlot(gs, es, i);
    forall c | c in gs[i].s.grid.tiles && gs[i].s.grid.tiles[c].player == es[i].p
      ensures gs[i].s.grid.tiles[c].kind != Body
    {
      assert c !in OwnedTiles(gs[i].s.grid, es[i].p);
    }
  }

  /** Clients change no tile. */
  lemma {:induction false} ClientsKeepGrid(gs: seq<Game>, es: seq<Event>, i: nat, j: nat)
    requires Run(gs, es) && i <= j < |gs| && forall k :: i <= k < j ==> es[k].Client?
    ensures gs[j].s.grid == gs[i].s.grid && gs[j].sweeping == gs[i].sweeping
    decreases j
  {
    if i < j {
      ClientsKeepGrid(gs, es, i, j - 1);
      assert Next(gs[j - 1], es[j - 1], gs[j - 1 + 1]);
    }
  }

  /** Within a tick, from the release of the slots at event i to the sweep, the dead tiles of a
      player are still on the field if and only if it died in this tick. A client that registers
      then at event j gets the slot of such a player together with its dead tiles. */
  lemma RegisterBeforeSweepFindsDead(gs: seq<Game>, es: seq<Event>, i: nat, j: nat, q: nat)
    requires Run(gs, es) && NoHazards(es) && i < j < |gs| && es[i].Players? && q < MAX_PLAYERS
    requires forall k :: i < k < j ==> es[k].Client?
    ensures gs[j].sweeping && gs[i].s.Fit() && gs[i + 1].s.Fit()
    ensures DeadOf(gs[j].s.grid, q) <==>
      Alive(gs[i].s.players[q].status) && !Alive(gs[i + 1].s.players[q].status)
  {
    RunIsGood(gs, es, i);
    RunIsGood(gs, es, i + 1);
    assert Next(gs[i], es[i], gs[i + 1]);
    PlayersLeaveDead(gs[i].s, es[i].t, es[i].chs, q);
    ClientsKeepGrid(gs, es, i + 1, j);
  }
}
