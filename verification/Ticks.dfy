/** Whole ticks keep the snakes well formed (server/server.c, server_tick). */
module Ticks {
  import opened Torus
  import opened Field
  import opened Options
  import opened Changes
  import opened Engine
  import opened Chains

  /** Every snake is a complete chain from its cached tail to its cached head, and every body
      tile of the field belongs to one: the form of the game at a tick boundary. */
  ghost predicate Snakes(s: State) {
    exists bs :: Inv(s, bs, 0)
  }

  ghost predicate NoDead(g: Grid) {
    forall c :: c in g.tiles ==> g.tiles[c].kind != Dead
  }

  /** Before the first client connects. */
  lemma NobodyConnected(s: State)
    requires s.Fit() && forall p :: 0 <= p < MAX_PLAYERS ==> s.players[p].status == NotConnected
    requires forall c :: c in s.grid.tiles ==> s.grid.tiles[c].kind == Empty || s.grid.tiles[c].kind == Wall
    ensures Snakes(s) && NoDead(s.grid)
  {
    var bs := seq(MAX_PLAYERS, i => []);
    assert Inv(s, bs, 0);
  }

  ghost predicate NoneTaken(s: State)
    requires s.Fit()
  {
    forall p :: 0 <= p < MAX_PLAYERS && Alive(s.players[p].status) ==> !TailTaken(s, p)
  }

  /** At a tick boundary no tail is taken. */
  lemma BoundaryNoneTaken(s: State, bs: seq<seq<Coord>>)
    requires Inv(s, bs, 0)
    ensures NoneTaken(s)
  {
    forall p | 0 <= p < MAX_PLAYERS && Alive(s.players[p].status) ensures !TailTaken(s, p) {
      assert BodyOf(s, p, bs[p], 0);
    }
  }

  /** Without taken tails it does not matter how many players have been processed. */
  lemma Reindex(s: State, bs: seq<seq<Coord>>, j: nat, k: nat)
    requires Inv(s, bs, j) && NoneTaken(s) && k <= MAX_PLAYERS
    ensures Inv(s, bs, k)
  {
    forall p | 0 <= p < MAX_PLAYERS ensures BodyOf(s, p, bs[p], k) {
      assert BodyOf(s, p, bs[p], j);
    }
  }

  /** The bodies after players 0 .. i - 1 have been processed. */
  ghost function Bodies(t: seq<State>, bs: seq<seq<Coord>>, i: nat): (r: seq<seq<Coord>>)
    requires i < |t| && i <= |bs| && |bs| == MAX_PLAYERS
    requires forall j :: 0 <= j < |t| ==> t[j].Fit()
    ensures |r| == MAX_PLAYERS
  {
    if i == 0 then bs
    else
      var before := Bodies(t, bs, i - 1);
      before[i - 1 := NextBody(t[i - 1], t[i], i - 1, before[i - 1])]
  }

  lemma TraceFits(t: seq<State>, chs: seq<Choice>, i: nat)
    requires PlayersTrace(t, chs) && t[0].Fit() && i < |t|
    ensures t[i].Fit()
  {
    if i > 0 {
      assert Step(t[i - 1], i - 1, chs[i - 1], t[i - 1 + 1]);
    }
  }

  /** After any number of players the invariant holds, and the tails on foreign tiles among
      the players processed so far are those of the hazardous steps. */
  lemma {:induction false} TraceKeepsInv(t: seq<State>, chs: seq<Choice>, bs: seq<seq<Coord>>, i: nat)
    requires PlayersTrace(t, chs) && |chs| <= MAX_PLAYERS && Inv(t[0], bs, 0) && i < |t|
    ensures forall j :: 0 <= j < |t| ==> t[j].Fit()
    ensures Inv(t[i], Bodies(t, bs, i), i)
    ensures forall q :: 0 <= q < i && Alive(t[i].players[q].status) ==> (TailTaken(t[i], q) <==> Hazard(t[q], q))
  {
    forall j | 0 <= j < |t| ensures t[j].Fit() {
      TraceFits(t, chs, j);
    }
    if i > 0 {
      var p := i - 1;
      TraceKeepsInv(t, chs, bs, p);
      assert Step(t[p], p, chs[p], t[p + 1]);
      StepKeepsInv(t[p], p, Bodies(t, bs, p), chs[p]);
      forall q | 0 <= q < i && Alive(t[i].players[q].status)
        ensures TailTaken(t[i], q) <==> Hazard(t[q], q)
      {
        if q < p {
          ProcessedTailStays(t[p], t[i], p, q, Bodies(t, bs, p));
        }
      }
    }
  }

  /** Once a player has been processed, no later player touches its cached tail's tile. */
  lemma ProcessedTailStays(s: State, r: State, p: nat, q: nat, bs: seq<seq<Coord>>)
    requires Inv(s, bs, p) && Frame(s, r, p) && q < p < MAX_PLAYERS && Alive(s.players[q].status)
    ensures TailTaken(r, q) <==> TailTaken(s, q)
  {
    assert BodyOf(s, q, bs[q], p);
    var c := s.tail[q];
    assert s.grid.tiles[c].kind == Body && s.grid.tiles[c].player < p;
  }

  lemma ExtendTrace(t: seq<State>, chs: seq<Choice>, ch: Choice, r: State)
    requires PlayersTrace(t, chs) && Step(t[|chs|], |chs|, ch, r)
    ensures PlayersTrace(t + [r], chs + [ch])
  {
    var t', chs' := t + [r], chs + [ch];
    forall i | 0 <= i < |chs'| ensures Step(t'[i], i, chs'[i], t'[i + 1]) {
      if i < |chs| {
        assert Step(t[i], i, chs[i], t[i + 1]);
      }
    }
  }

  lemma ExtendFruits(t: seq<State>, picks: seq<Option<Coord>>, pick: Option<Coord>, r: State)
    requires FruitsTrace(t, picks) && Refill(t[|picks|], pick, r)
    ensures FruitsTrace(t + [r], picks + [pick])
  {
    var t', picks' := t + [r], picks + [pick];
    forall i | 0 <= i < |picks'| ensures Refill(t'[i], picks'[i], t'[i + 1]) {
      if i < |picks| {
        assert Refill(t[i], picks[i], t[i + 1]);
      }
    }
  }

  /** Nothing goes wrong in the loop over the players: whatever the random picks, the next
      player can be processed and the process does not exit. */
  lemma TraceNeverExits(t: seq<State>, chs: seq<Choice>, bs: seq<seq<Coord>>, ch: Choice)
    requires PlayersTrace(t, chs) && |chs| < MAX_PLAYERS && Inv(t[0], bs, 0)
    ensures t[|chs|].Fit()
    ensures Allowed(t[|chs|], |chs|, ch) ==> Addressable(t[|chs|]) && ProcessPlayer(t[|chs|], |chs|, ch).Some?
  {
    var n := |chs|;
    TraceKeepsInv(t, chs, bs, n);
    InvAddressable(t[n], Bodies(t, bs, n), n);
    if Allowed(t[n], n, ch) {
      StepKeepsInv(t[n], n, Bodies(t, bs, n), ch);
    }
  }

  ghost predicate HazardFree(t: seq<State>) {
    forall p :: 0 <= p < |t| - 1 && p < MAX_PLAYERS ==> t[p].Fit() && !Hazard(t[p], p)
  }

  lemma OpenedKeepsInv(s: State, bs: seq<seq<Coord>>)
    requires Inv(s, bs, 0)
    ensures Inv(Opened(s), bs, 0)
  {
    SameSnakesKeepInv(s, Opened(s), bs, 0);
  }

  /** Without a hazard the bodies tracked through the loop are well formed at its end. */
  lemma TickBodies(s: State, t: seq<State>, chs: seq<Choice>, bs: seq<seq<Coord>>)
    requires Inv(s, bs, 0) && TickPlayers(s, t, chs) && HazardFree(t)
    ensures forall j :: 0 <= j < |t| ==> t[j].Fit()
    ensures Inv(t[MAX_PLAYERS], Bodies(t, bs, MAX_PLAYERS), 0)
  {
    OpenedKeepsInv(s, bs);
    TraceKeepsInv(t, chs, bs, MAX_PLAYERS);
    Reindex(t[MAX_PLAYERS], Bodies(t, bs, MAX_PLAYERS), MAX_PLAYERS, 0);
  }

  /** The loop over the players leaves well-formed snakes if and only if no snake ate a fruit
      after its tail had been taken. */
  lemma PlayersKeepSnakes(s: State, t: seq<State>, chs: seq<Choice>)
    requires Snakes(s) && TickPlayers(s, t, chs)
    ensures Snakes(t[MAX_PLAYERS]) <==> HazardFree(t)
  {
    var bs :| Inv(s, bs, 0);
    var n := MAX_PLAYERS;
    OpenedKeepsInv(s, bs);
    TraceKeepsInv(t, chs, bs, n);
    if HazardFree(t) {
      TickBodies(s, t, chs, bs);
    } else {
      var p :| 0 <= p < n && Hazard(t[p], p);
      TraceKeepsInv(t, chs, bs, p);
      HazardLeavesTrace(t, chs, bs, p);
      if Snakes(t[n]) {
        var cs :| Inv(t[n], cs, 0);
        BoundaryNoneTaken(t[n], cs);
      }
    }
  }

  /** The snake that ate survives the tick with its tail on a foreign tile. */
  lemma HazardLeavesTrace(t: seq<State>, chs: seq<Choice>, bs: seq<seq<Coord>>, p: nat)
    requires PlayersTrace(t, chs) && |chs| == MAX_PLAYERS && Inv(t[0], bs, 0) && p < MAX_PLAYERS
    requires t[p].Fit() && Hazard(t[p], p)
    ensures t[MAX_PLAYERS].Fit() && Alive(t[MAX_PLAYERS].players[p].status) && TailTaken(t[MAX_PLAYERS], p)
  {
    assert Step(t[p], p, chs[p], t[p + 1]);
    assert t[p + 1].players[p].status == Playing;
    TraceKeepsInv(t, chs, bs, MAX_PLAYERS);
    UntouchedBetween(t, chs, bs, p, p + 1, MAX_PLAYERS);
  }

  /** While other players are processed, player q's slot, caches and body stay as they are. */
  lemma {:induction false} UntouchedBetween(
      t: seq<State>, chs: seq<Choice>, bs: seq<seq<Coord>>, q: nat, i: nat, j: nat)
    requires PlayersTrace(t, chs) && |chs| == MAX_PLAYERS && Inv(t[0], bs, 0)
    requires i <= j <= MAX_PLAYERS && q < MAX_PLAYERS && (q < i || j <= q)
    ensures forall k :: 0 <= k < |t| ==> t[k].Fit()
    ensures t[i].Fit() && t[j].Fit()
    ensures t[j].players[q] == t[i].players[q] && t[j].head[q] == t[i].head[q] && t[j].tail[q] == t[i].tail[q]
    ensures Bodies(t, bs, j)[q] == Bodies(t, bs, i)[q]
    decreases j
  {
    forall k | 0 <= k < |t| ensures t[k].Fit() {
      TraceFits(t, chs, k);
    }
    if i < j {
      UntouchedBetween(t, chs, bs, q, i, j - 1);
      UntouchedNext(t, chs, bs, q, j - 1);
    }
  }

  lemma UntouchedNext(t: seq<State>, chs: seq<Choice>, bs: seq<seq<Coord>>, q: nat, p: nat)
    requires PlayersTrace(t, chs) && |chs| == MAX_PLAYERS && Inv(t[0], bs, 0)
    requires p < MAX_PLAYERS && q < MAX_PLAYERS && q != p
    ensures forall k :: 0 <= k < |t| ==> t[k].Fit()
    ensures t[p].Fit() && t[p + 1].Fit() && t[p + 1].players[q] == t[p].players[q]
    ensures t[p + 1].head[q] == t[p].head[q] && t[p + 1].tail[q] == t[p].tail[q]
    ensures Bodies(t, bs, p + 1)[q] == Bodies(t, bs, p)[q]
  {
    forall k | 0 <= k < |t| ensures t[k].Fit() {
      TraceFits(t, chs, k);
    }
    TraceKeepsInv(t, chs, bs, p);
    assert Step(t[p], p, chs[p], t[p + 1]);
    OtherUntouched(t[p], p, Bodies(t, bs, p), chs[p], q, t[p + 1]);
  }

  lemma OtherUntouched(s: State, p: nat, bs: seq<seq<Coord>>, ch: Choice, q: nat, r: State)
    requires Inv(s, bs, p) && Step(s, p, ch, r) && q < MAX_PLAYERS && q != p
    ensures r.Fit() && r.players[q] == s.players[q] && r.head[q] == s.head[q] && r.tail[q] == s.tail[q]
  {
    StepKeepsInv(s, p, bs, ch);
  }

  /** A tick in which nobody joins has no hazard: only a joining player's fruit appears while
      players are being processed. */
  lemma NoJoinNoHazard(s: State, t: seq<State>, chs: seq<Choice>)
    requires Snakes(s) && TickPlayers(s, t, chs)
    requires forall p :: 0 <= p < MAX_PLAYERS ==> s.players[p].status != Joining
    ensures HazardFree(t)
  {
    var bs :| Inv(s, bs, 0);
    OpenedKeepsInv(s, bs);
    forall p | 0 <= p < MAX_PLAYERS ensures t[p].Fit() && !Hazard(t[p], p) {
      TraceKeepsInv(t, chs, bs, p);
      NoJoinReserved(s, t, chs, bs, p);
    }
  }

  /** A player whose tail has been taken is not looking at a fruit. */
  ghost predicate Reserved(s: State, k: nat)
    requires s.Fit()
  {
    forall q :: k <= q < MAX_PLAYERS && s.players[q].status == Playing ==> !Hazard(s, q)
  }

  lemma {:induction false} NoJoinReserved(s: State, t: seq<State>, chs: seq<Choice>, bs: seq<seq<Coord>>, i: nat)
    requires Inv(Opened(s), bs, 0) && TickPlayers(s, t, chs) && i <= MAX_PLAYERS
    requires forall p :: 0 <= p < MAX_PLAYERS ==> s.players[p].status != Joining
    ensures t[i].Fit() && Reserved(t[i], i)
    ensures forall q :: i <= q < MAX_PLAYERS ==> t[i].players[q] == s.players[q]
  {
    TraceKeepsInv(t, chs, bs, i);
    if i == 0 {
      BoundaryNoneTaken(t[0], bs);
    } else {
      var p := i - 1;
      NoJoinReserved(s, t, chs, bs, p);
      TraceKeepsInv(t, chs, bs, p);
      assert Step(t[p], p, chs[p], t[p + 1]);
      StepKeepsInv(t[p], p, Bodies(t, bs, p), chs[p]);
      StepReserves(t[p], p, Bodies(t, bs, p), chs[p], t[i]);
    }
  }

  /** A step that spawns no fruit puts no player whose tail is or becomes taken before a fruit. */
  lemma StepReserves(s: State, p: nat, bs: seq<seq<Coord>>, ch: Choice, r: State)
    requires Inv(s, bs, p) && Step(s, p, ch, r) && s.players[p].status != Joining
    requires r.Fit() && Frame(s, r, p) && Reserved(s, p)
    ensures Reserved(r, p + 1)
  {
    forall q | p < q < MAX_PLAYERS && r.players[q].status == Playing ensures !Hazard(r, q) {
      if Hazard(r, q) {
        HazardIsOlder(s, p, bs, ch, r, q);
      }
    }
  }

  /** A step that spawns no fruit creates no hazard: what threatens player q afterwards did so
      before. */
  lemma HazardIsOlder(s: State, p: nat, bs: seq<seq<Coord>>, ch: Choice, r: State, q: nat)
    requires Inv(s, bs, p) && Step(s, p, ch, r) && s.players[p].status != Joining
    requires r.Fit() && Frame(s, r, p) && p < q < MAX_PLAYERS && Hazard(r, q)
    ensures Hazard(s, q)
  {
    assert BodyOf(s, q, bs[q], p);
    NoNewFruit(s, p, ch, r);
    if Owned(s.grid, q, s.tail[q]) {
      assert Handed(s, r, p, s.tail[q]);
      HandedImpliesEmptyAhead(s, p, ch, r, q);
    }
  }

  /** A joining player creates one only by its fruit, and only for a snake that has lost its tail. */
  lemma JoinHazard(s: State, p: nat, bs: seq<seq<Coord>>, ch: Choice, r: State, q: nat)
    requires Inv(s, bs, p) && Step(s, p, ch, r) && s.players[p].status == Joining
    requires r.Fit() && Frame(s, r, p) && p < q < MAX_PLAYERS && Hazard(r, q)
    ensures Hazard(s, q) || (TailTaken(s, q) && ch.spawn.Some? && ch.fruit == Some(NextHead(r, q)))
  {
    assert BodyOf(s, q, bs[q], p);
    if Owned(s.grid, q, s.tail[q]) {
      JoinTakesNoBody(s, p, ch, s.tail[q]);
    }
    JoinsOneFruit(s, p, ch, NextHead(r, q));
  }

  lemma JoinsOneFruit(s: State, p: nat, ch: Choice, c: Coord)
    requires s.Fit() && p < MAX_PLAYERS && Waiting(s.players[p].status) && Allowed(s, p, ch)
    ensures IsKind(Join(s, p, ch).grid, c, Fruit) ==>
      IsKind(s.grid, c, Fruit) || (ch.spawn.Some? && ch.fruit == Some(c))
  {
  }

  /** A tail once taken is not given back before its player moves. */
  lemma TakenStays(s: State, p: nat, bs: seq<seq<Coord>>, r: State, q: nat)
    requires Inv(s, bs, p) && Frame(s, r, p) && p < MAX_PLAYERS && q < MAX_PLAYERS && q != p
    requires Alive(s.players[q].status) && TailTaken(s, q)
    ensures TailTaken(r, q)
  {
    assert BodyOf(s, q, bs[q], p);
  }

  /** Player p joins in its step and puts its fruit ahead of player q, whose tail has been taken. */
  ghost predicate FruitAhead(t: seq<State>, chs: seq<Choice>, p: nat, q: nat, n: Coord) {
    && p < |chs| < |t| && t[p].Fit() && p < MAX_PLAYERS && q < MAX_PLAYERS
    && t[p].players[p].status == Joining && chs[p].spawn.Some? && chs[p].fruit == Some(n) && TailTaken(t[p], q)
  }

  lemma {:induction false} HazardSource(t: seq<State>, chs: seq<Choice>, bs: seq<seq<Coord>>, q: nat, i: nat)
    returns (p: nat)
    requires PlayersTrace(t, chs) && |chs| == MAX_PLAYERS && Inv(t[0], bs, 0) && i <= q < MAX_PLAYERS
    requires t[i].Fit() && Hazard(t[i], q)
    ensures p < i && FruitAhead(t, chs, p, q, NextHead(t[i], q))
  {
    TraceKeepsInv(t, chs, bs, i);
    if i == 0 {
      BoundaryNoneTaken(t[0], bs);
      assert false;
    } else {
      var k := i - 1;
      TraceKeepsInv(t, chs, bs, k);
      assert Step(t[k], k, chs[k], t[k + 1]);
      StepKeepsInv(t[k], k, Bodies(t, bs, k), chs[k]);
      if Hazard(t[k], q) {
        p := HazardSource(t, chs, bs, q, k);
      } else {
        p := k;
        if t[k].players[k].status == Joining {
          JoinHazard(t[k], k, Bodies(t, bs, k), chs[k], t[i], q);
        } else {
          HazardIsOlder(t[k], k, Bodies(t, bs, k), chs[k], t[i], q);
        }
      }
    }
  }

  lemma {:induction false} TakenUntil(t: seq<State>, chs: seq<Choice>, bs: seq<seq<Coord>>, q: nat, p: nat, i: nat)
    requires PlayersTrace(t, chs) && |chs| == MAX_PLAYERS && Inv(t[0], bs, 0) && p <= i <= q < MAX_PLAYERS
    requires t[p].Fit() && TailTaken(t[p], q) && t[i].Fit() && Alive(t[i].players[q].status)
    ensures TailTaken(t[i], q)
    decreases i
  {
    if p < i {
      var k := i - 1;
      TraceKeepsInv(t, chs, bs, k);
      assert Step(t[k], k, chs[k], t[k + 1]);
      StepKeepsInv(t[k], k, Bodies(t, bs, k), chs[k]);
      TakenUntil(t, chs, bs, q, p, k);
      TakenStays(t[k], k, Bodies(t, bs, k), t[i], q);
    }
  }

  /** The exact cause of a hazard: a player processed earlier in the tick joined after the tail
      had been taken, and its fruit was put on the tile ahead and is still there. */
  lemma HazardCause(s: State, t: seq<State>, chs: seq<Choice>, q: nat)
    requires Snakes(s) && TickPlayers(s, t, chs) && q < MAX_PLAYERS
    ensures t[q].Fit()
    ensures Hazard(t[q], q) <==>
      && t[q].players[q].status == Playing && t[q].grid.dims.Has(t[q].head[q])
      && IsKind(t[q].grid, NextHead(t[q], q), Fruit)
      && exists p :: 0 <= p < q && FruitAhead(t, chs, p, q, NextHead(t[q], q))
  {
    var bs :| Inv(s, bs, 0);
    OpenedKeepsInv(s, bs);
    TraceKeepsInv(t, chs, bs, q);
    if Hazard(t[q], q) {
      var p := HazardSource(t, chs, bs, q, q);
    } else if t[q].players[q].status == Playing && t[q].grid.dims.Has(t[q].head[q]) {
      if p :| 0 <= p < q && FruitAhead(t, chs, p, q, NextHead(t[q], q)) {
        TakenUntil(t, chs, bs, q, p, q);
      }
    }
  }

  ghost predicate NoNewFruits(g: Grid, h: Grid) {
    forall c :: IsKind(h, c, Fruit) ==> IsKind(g, c, Fruit)
  }

  lemma PlayNoNewFruit(s: State, p: nat)
    requires Addressable(s) && p < MAX_PLAYERS && s.players[p].status == Playing && Play(s, p).Some?
    ensures NoNewFruits(s.grid, Play(s, p).value.grid)
  {
    var n := NextHead(s, p);
    PlayCases(s, p);
    if MayAdvance(s, p, n) {
      AdvanceNoNewFruit(s, p, n);
    }
  }

  lemma AdvanceNoNewFruit(s: State, p: nat, n: Coord)
    requires Cached(s, p) && s.grid.dims.Has(n) && Advance(s, p, n).Some?
    ensures NoNewFruits(s.grid, Advance(s, p, n).value.grid)
  {
    AdvancedGrid(s, p, n);
    var g := ClearTail(MoveHead(s, p, n), p).grid;
    forall c | IsKind(g, c, Fruit) ensures IsKind(s.grid, c, Fruit) {
      assert g.tiles[c] == AdvancedTile(s, p, n, c);
    }
  }

  lemma RespawnNoNewFruit(s: State, p: nat, ch: Choice)
    requires s.Fit() && p < MAX_PLAYERS && s.players[p].status == Respawning && Allowed(s, p, ch)
    ensures NoNewFruits(s.grid, Join(s, p, ch).grid)
  {
  }

  lemma NoNewFruit(s: State, p: nat, ch: Choice, r: State)
    requires Step(s, p, ch, r) && s.players[p].status != Joining
    ensures NoNewFruits(s.grid, r.grid)
  {
    if s.players[p].status == Playing {
      PlayNoNewFruit(s, p);
    } else if s.players[p].status == Respawning {
      RespawnNoNewFruit(s, p, ch);
    }
  }

  /** p gains a tile of another player only by stepping onto it. */
  lemma GainedByStepping(s: State, p: nat, c: Coord)
    requires Addressable(s) && p < MAX_PLAYERS && s.players[p].status == Playing && Play(s, p).Some?
    requires c in s.grid.tiles && !Owned(s.grid, p, c) && Owned(Play(s, p).value.grid, p, c)
    ensures c == NextHead(s, p) && (s.grid.tiles[c].kind == Body ==> MayFollow(s, p, s.grid.tiles[c].player, c))
  {
    var n := NextHead(s, p);
    PlayCases(s, p);
    if MayAdvance(s, p, n) {
      AdvancedGrid(s, p, n);
    }
  }

  /** A tail is handed over only while its player looks at an empty tile. */
  lemma HandedImpliesEmptyAhead(s: State, p: nat, ch: Choice, r: State, q: nat)
    requires Step(s, p, ch, r) && p < q < MAX_PLAYERS
    requires Cached(s, q) && Owned(s.grid, q, s.tail[q]) && Owned(r.grid, p, s.tail[q])
    ensures IsKind(s.grid, NextHead(s, q), Empty)
  {
    if s.players[p].status == Playing {
      GainedByStepping(s, p, s.tail[q]);
    } else if Waiting(s.players[p].status) {
      JoinTakesNoBody(s, p, ch, s.tail[q]);
    }
  }

  lemma JoinTakesNoBody(s: State, p: nat, ch: Choice, c: Coord)
    requires s.Fit() && p < MAX_PLAYERS && Waiting(s.players[p].status) && Allowed(s, p, ch)
    requires IsKind(s.grid, c, Body)
    ensures Join(s, p, ch).grid.tiles[c] == s.grid.tiles[c]
  {
    if ch.spawn.Some? {
      EmptyNeighborComplete(s.grid, ch.spawn.value);
    }
  }

  /** The tile comes at or after (i, j) in row-major order. */
  ghost predicate Later(c: Coord, i: nat, j: nat) {
    c.row > i || (c.row == i && c.col >= j)
  }

  /** r is s with the dead tiles from (i, j) on emptied. */
  ghost predicate SweptFrom(s: State, r: State, i: nat, j: nat) {
    && SameSnakes(s, r) && r.eaten == s.eaten
    && forall c :: c in s.grid.tiles ==>
         r.grid.tiles[c] == if Later(c, i, j) && s.grid.tiles[c].kind == Dead
                            then s.grid.tiles[c].(kind := Empty) else s.grid.tiles[c]
  }

  lemma SweptFromNext(s: State, r: State, i: nat, j: nat)
    requires s.Fit() && i < s.grid.dims.height && j < s.grid.dims.width
    requires SweptFrom(SweepTile(s, Coord(i, j)), r, i, j + 1)
    ensures SweptFrom(s, r, i, j)
  {
  }

  /** The sweep empties the dead tiles from (i, j) on; it concerns no snake. */
  lemma {:induction false} SweepFacts(s: State, i: nat, j: nat)
    requires s.Fit() && i <= s.grid.dims.height && j <= s.grid.dims.width
    ensures SweptFrom(s, Sweep(s, i, j), i, j)
    decreases s.grid.dims.height - i, s.grid.dims.width - j
  {
    if i < s.grid.dims.height {
      if j == s.grid.dims.width {
        SweepFacts(s, i + 1, 0);
      } else {
        SweepFacts(SweepTile(s, Coord(i, j)), i, j + 1);
        SweptFromNext(s, Sweep(s, i, j), i, j);
      }
    }
  }

  lemma SweptFacts(s: State)
    requires s.Fit() && (s.died || NoDead(s.grid))
    ensures SameSnakes(s, Swept(s)) && NoDead(Swept(s).grid) && Swept(s).eaten == s.eaten
  {
    if s.died {
      SweepFacts(s, 0, 0);
    }
  }

  /** The second part of a tick keeps well-formed snakes and leaves no dead tile. */
  lemma FieldKeepsSnakes(s: State, t: seq<State>, picks: seq<Option<Coord>>, bs: seq<seq<Coord>>, k: nat)
    requires Inv(s, bs, k) && (s.died || NoDead(s.grid)) && TickField(s, t, picks)
    ensures Inv(t[|picks|], bs, k) && NoDead(t[|picks|].grid) && t[|picks|].players == s.players
  {
    SweptFacts(s);
    SameSnakesKeepInv(s, t[0], bs, k);
    RefillsKeepSnakes(t, picks, bs, k, |picks|);
  }

  /** It makes no snake well formed either that was not so before. */
  lemma FieldIsNeutral(s: State, t: seq<State>, picks: seq<Option<Coord>>)
    requires s.Fit() && TickField(s, t, picks) && Snakes(t[|picks|])
    ensures Snakes(s)
  {
    SweepFacts(s, 0, 0);
    RefillsSame(t, picks, |picks|);
    var bs :| Inv(t[|picks|], bs, 0);
    SameSnakesKeepInv(t[|picks|], t[0], bs, 0);
    SameSnakesKeepInv(t[0], s, bs, 0);
  }

  lemma {:induction false} RefillsSame(t: seq<State>, picks: seq<Option<Coord>>, i: nat)
    requires FruitsTrace(t, picks) && t[0].Fit() && i < |t|
    ensures SameSnakes(t[i], t[0])
  {
    if i > 0 {
      RefillsSame(t, picks, i - 1);
      assert Refill(t[i - 1], picks[i - 1], t[i - 1 + 1]);
    }
  }

  lemma {:induction false} RefillsKeepSnakes(
      t: seq<State>, picks: seq<Option<Coord>>, bs: seq<seq<Coord>>, k: nat, i: nat)
    requires FruitsTrace(t, picks) && Inv(t[0], bs, k) && NoDead(t[0].grid) && i < |t|
    ensures Inv(t[i], bs, k) && NoDead(t[i].grid) && t[i].players == t[0].players
  {
    if i > 0 {
      RefillsKeepSnakes(t, picks, bs, k, i - 1);
      assert Refill(t[i - 1], picks[i - 1], t[i - 1 + 1]);
      SameSnakesKeepInv(t[i - 1], t[i], bs, k);
    }
  }

  /** A dead tile appears only together with the flag that makes the tick sweep. */
  lemma {:induction false} DeathsAreFlagged(s: State, t: seq<State>, chs: seq<Choice>, i: nat)
    requires TickPlayers(s, t, chs) && NoDead(s.grid) && i <= MAX_PLAYERS
    ensures t[i].died || NoDead(t[i].grid)
  {
    if i > 0 {
      var p := i - 1;
      DeathsAreFlagged(s, t, chs, p);
      assert Step(t[p], p, chs[p], t[p + 1]);
      StepFlagsDeaths(t[p], p, chs[p], t[p + 1]);
    }
  }

  lemma PlayFlagsDeaths(s: State, p: nat)
    requires Addressable(s) && p < MAX_PLAYERS && s.players[p].status == Playing && Play(s, p).Some?
    requires s.died || NoDead(s.grid)
    ensures Play(s, p).value.died || NoDead(Play(s, p).value.grid)
  {
    var n := NextHead(s, p);
    PlayCases(s, p);
    if MayAdvance(s, p, n) {
      AdvanceFlagsDeaths(s, p, n, Play(s, p).value);
    }
  }

  lemma AdvanceFlagsDeaths(s: State, p: nat, n: Coord, r: State)
    requires Cached(s, p) && s.grid.dims.Has(n) && Advance(s, p, n) == Some(r) && (s.died || NoDead(s.grid))
    ensures r.died || NoDead(r.grid)
  {
    AdvancedGrid(s, p, n);
    forall x | !s.died && x in r.grid.tiles ensures r.grid.tiles[x].kind != Dead {
      assert r.grid.tiles[x] == AdvancedTile(s, p, n, x);
    }
  }

  lemma JoinFlagsDeaths(s: State, p: nat, ch: Choice)
    requires s.Fit() && p < MAX_PLAYERS && Waiting(s.players[p].status) && Allowed(s, p, ch)
    requires s.died || NoDead(s.grid)
    ensures Join(s, p, ch).died || NoDead(Join(s, p, ch).grid)
  {
    if ch.spawn.Some? {
      SpawnFlagsDeaths(s, p, ch.spawn.value);
    }
  }

  lemma SpawnFlagsDeaths(s: State, p: nat, h: Coord)
    requires s.Fit() && p < MAX_PLAYERS && s.grid.dims.Has(h) && SpawnSpot(s.grid, h)
    requires s.died || NoDead(s.grid)
    ensures Spawn(s, p, h).died || NoDead(Spawn(s, p, h).grid)
  {
  }

  lemma StepFlagsDeaths(s: State, p: nat, ch: Choice, r: State)
    requires Step(s, p, ch, r) && (s.died || NoDead(s.grid))
    ensures r.died || NoDead(r.grid)
  {
    if s.players[p].status == Playing {
      PlayFlagsDeaths(s, p);
    } else if Waiting(s.players[p].status) {
      JoinFlagsDeaths(s, p, ch);
    }
  }

  lemma {:induction false} DimsStay(t: seq<State>, chs: seq<Choice>, bs: seq<seq<Coord>>, i: nat)
    requires PlayersTrace(t, chs) && |chs| <= MAX_PLAYERS && Inv(t[0], bs, 0) && i < |t|
    ensures t[i].grid.dims == t[0].grid.dims
  {
    if i > 0 {
      DimsStay(t, chs, bs, i - 1);
      TraceKeepsInv(t, chs, bs, i - 1);
      assert Step(t[i - 1], i - 1, chs[i - 1], t[i - 1 + 1]);
      StepKeepsInv(t[i - 1], i - 1, Bodies(t, bs, i - 1), chs[i - 1]);
    }
  }

  predicate Active(status: Status) {
    status == Playing || status == Paused
  }

  lemma PlayKeepsFlag(s: State, p: nat)
    requires Addressable(s) && p < MAX_PLAYERS && s.players[p].status == Playing && Play(s, p).Some?
    ensures Play(s, p).value.noneAlive == s.noneAlive
    ensures var status := Play(s, p).value.players[p].status; status == Playing || status == PlayerDead
  {
    PlayCases(s, p);
  }

  lemma StepKeepsFlag(s: State, p: nat, ch: Choice, r: State)
    requires Step(s, p, ch, r)
    ensures r.Fit() && r.noneAlive == (s.noneAlive && !Active(r.players[p].status))
  {
    match s.players[p].status
    case Playing => PlayKeepsFlag(s, p);
    case Joining | Respawning => JoinKeepsFlag(s, p, ch);
    case _ =>
  }

  lemma JoinKeepsFlag(s: State, p: nat, ch: Choice)
    requires s.Fit() && p < MAX_PLAYERS && Waiting(s.players[p].status) && Allowed(s, p, ch)
    ensures var r := Join(s, p, ch); r.noneAlive == (s.noneAlive && !Active(r.players[p].status))
  {
  }

  /** The flag server_tick returns the negation of is set exactly if no player processed so far
      is playing or paused. */
  lemma {:induction false} NoneAliveMeansNoneActive(
      s: State, t: seq<State>, chs: seq<Choice>, bs: seq<seq<Coord>>, i: nat)
    requires Inv(s, bs, 0) && TickPlayers(s, t, chs) && i <= MAX_PLAYERS
    ensures t[i].Fit()
    ensures t[i].noneAlive <==> forall q :: 0 <= q < i ==> !Active(t[i].players[q].status)
  {
    OpenedKeepsInv(s, bs);
    TraceKeepsInv(t, chs, bs, i);
    if i > 0 {
      var p := i - 1;
      NoneAliveMeansNoneActive(s, t, chs, bs, p);
      TraceKeepsInv(t, chs, bs, p);
      assert Step(t[p], p, chs[p], t[p + 1]);
      StepKeepsInv(t[p], p, Bodies(t, bs, p), chs[p]);
      StepKeepsFlag(t[p], p, chs[p], t[i]);
      assert forall q :: 0 <= q < p ==> t[i].players[q] == t[p].players[q];
    }
  }
}
