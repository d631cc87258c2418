/** Whole runs of the game (server/server.c, libsnake/player/player_manager.c). */
module Runs {
  import opened Torus
  import opened Field
  import opened Options
  import opened Changes
  import opened Engine
  import opened Operations
  import opened Chains
  import opened Ticks
  import opened Exits
  import Budget
  import Completion
  import Conservation

  /** The game and, for each slot, whether a client holds it. A tick is taken in two atomic parts,
      because the player locks are released before the sweep; between them the game is sweeping. */
  datatype Game = Game(s: State, held: seq<bool>, sweeping: bool)

  datatype Event =
    | Client(p: nat, op: Operation)
    | Players(t: seq<State>, chs: seq<Choice>)
    | Rest(u: seq<State>, picks: seq<Option<Coord>>)

  /** A client registers in a slot that is not connected and unregisters only a slot it holds. */
  ghost predicate Next(g: Game, e: Event, h: Game) {
    match e
    case Client(p, op) =>
      && g.s.Fit() && |g.held| == MAX_PLAYERS && p < MAX_PLAYERS
      && (op.Register? ==> g.s.players[p].status == NotConnected)
      && (op.Unregister? ==> g.held[p])
      && h == g.(s := g.s.PutPlayer(p, Operate(g.s.players[p], op)),
                 held := if op.Register? then g.held[p := true]
                         else if op.Unregister? then g.held[p := false] else g.held)
    case Players(t, chs) =>
      !g.sweeping && TickPlayers(g.s, t, chs) && h == g.(s := t[MAX_PLAYERS], sweeping := true)
    case Rest(u, picks) =>
      g.sweeping && TickField(g.s, u, picks) && h == g.(s := u[|picks|], sweeping := false)
  }

  ghost predicate Initial(g: Game) {
    && g.s.Fit() && |g.held| == MAX_PLAYERS && !g.sweeping
    && (forall c :: c in g.s.grid.tiles ==> g.s.grid.tiles[c].kind == Empty || g.s.grid.tiles[c].kind == Wall)
    && (forall p :: 0 <= p < MAX_PLAYERS ==> g.s.players[p].status == NotConnected && !g.held[p])
  }

  ghost predicate Run(gs: seq<Game>, es: seq<Event>) {
    |gs| == |es| + 1 && Initial(gs[0]) && forall i :: 0 <= i < |es| ==> Next(gs[i], es[i], gs[i + 1])
  }

  /** No tick of the run contains the event of Chains.Hazard. */
  ghost predicate NoHazards(es: seq<Event>) {
    forall i :: 0 <= i < |es| && es[i].Players? ==> HazardFree(es[i].t)
  }

  /** A held slot is connected, a slot nobody holds is not or is about to be cleaned up. */
  ghost predicate SlotsAgree(g: Game) {
    && g.s.Fit() && |g.held| == MAX_PLAYERS
    && forall p :: 0 <= p < MAX_PLAYERS ==>
         (g.held[p] <==> g.s.players[p].status != NotConnected && g.s.players[p].status != Disconnecting)
  }

  /** What holds at every point of a run. */
  ghost predicate Good(g: Game) {
    && SlotsAgree(g) && Snakes(g.s)
    && (NoDead(g.s.grid) || (g.sweeping && g.s.died))
    && (g.sweeping ==>
          Budget.Owed(g.s) + |Budget.DeadTiles(g.s.grid)| <= Size(g.s.grid.dims) + MAX_PLAYERS <= MAX_CHANGELOG_SIZE)
  }

  lemma InitialIsGood(g: Game)
    requires Initial(g)
    ensures Good(g)
  {
    NobodyConnected(g.s);
  }

  /** Changing a slot without changing whether its player lives concerns no snake. */
  lemma SlotKeepsSnakes(s: State, p: nat, player: Player)
    requires Snakes(s) && s.Fit() && p < MAX_PLAYERS
    requires Alive(player.status) <==> Alive(s.players[p].status)
    ensures Snakes(s.PutPlayer(p, player))
  {
    var bs :| Inv(s, bs, 0);
    var r := s.PutPlayer(p, player);
    forall q | 0 <= q < MAX_PLAYERS ensures BodyOf(r, q, bs[q], 0) {
      assert BodyOf(s, q, bs[q], 0);
      if Alive(r.players[q].status) {
        forall i | 0 <= i < |bs[q]| ensures Link(r, q, bs[q], i) {
          assert Link(s, q, bs[q], i);
        }
      }
    }
    assert Inv(r, bs, 0);
  }

  lemma ClientKeepsGood(g: Game, p: nat, op: Operation, h: Game)
    requires Good(g) && Next(g, Client(p, op), h)
    ensures Good(h)
  {
    SlotKeepsSnakes(g.s, p, Operate(g.s.players[p], op));
  }

  /** A tick never connects a slot, and disconnects exactly the slots about to be cleaned up. */
  lemma StepKeepsSlots(s: State, p: nat, ch: Choice, r: State)
    requires Step(s, p, ch, r)
    ensures r.Fit()
    ensures (r.players[p].status == NotConnected || r.players[p].status == Disconnecting) <==>
            (s.players[p].status == NotConnected || s.players[p].status == Disconnecting)
  {
    if s.players[p].status == Playing {
      PlayKeepsFlag(s, p);
    }
  }

  lemma {:induction false} TraceKeepsSlots(g: Game, t: seq<State>, chs: seq<Choice>, i: nat)
    requires SlotsAgree(g) && TickPlayers(g.s, t, chs) && i <= MAX_PLAYERS
    ensures SlotsAgree(g.(s := t[i]))
  {
    if i > 0 {
      var p := i - 1;
      TraceKeepsSlots(g, t, chs, p);
      assert Step(t[p], p, chs[p], t[p + 1]);
      StepIsLocal(t[p], p, chs[p], t[i]);
      StepKeepsSlots(t[p], p, chs[p], t[i]);
    }
  }

  lemma PlayersKeepGood(g: Game, t: seq<State>, chs: seq<Choice>, h: Game)
    requires Good(g) && Next(g, Players(t, chs), h) && HazardFree(t)
    ensures Good(h)
  {
    var bs :| Inv(g.s, bs, 0);
    PlayersKeepSnakes(g.s, t, chs);
    TraceKeepsSlots(g, t, chs, MAX_PLAYERS);
    DeathsAreFlagged(g.s, t, chs, MAX_PLAYERS);
    Budget.PlayersLeaveRoom(g.s, t, chs, bs);
  }

  lemma RestKeepsGood(g: Game, u: seq<State>, picks: seq<Option<Coord>>, h: Game)
    requires Good(g) && Next(g, Rest(u, picks), h)
    ensures Good(h)
  {
    var bs :| Inv(g.s, bs, 0);
    FieldKeepsSnakes(g.s, u, picks, bs, 0);
  }

  /** At every point of every run without a hazard the snakes are well formed, the slots agree
      with their holders, and between ticks no tile is dead. */
  lemma {:induction false} RunIsGood(gs: seq<Game>, es: seq<Event>, i: nat)
    requires Run(gs, es) && NoHazards(es) && i < |gs|
    ensures Good(gs[i])
    decreases i
  {
    if i == 0 {
      InitialIsGood(gs[0]);
    } else {
      RunIsGood(gs, es, i - 1);
      assert Next(gs[i - 1], es[i - 1], gs[i - 1 + 1]);
      match es[i - 1]
      case Client(p, op) => ClientKeepsGood(gs[i - 1], p, op, gs[i]);
      case Players(t, chs) => PlayersKeepGood(gs[i - 1], t, chs, gs[i]);
      case Rest(u, picks) => RestKeepsGood(gs[i - 1], u, picks, gs[i]);
    }
  }

  /** In a run without a hazard no tick can get stuck or reach the exit: wherever the loop over
      the players stands, the random searches have some outcome, and for every outcome they may
      have the next player is processed. */
  lemma RunNeverExits(gs: seq<Game>, es: seq<Event>, i: nat, t: seq<State>, chs: seq<Choice>)
    requires Run(gs, es) && NoHazards(es) && i < |gs| && !gs[i].sweeping
    requires PlayersTrace(t, chs) && t[0] == Opened(gs[i].s) && |chs| < MAX_PLAYERS
    ensures t[|chs|].Fit() && exists ch :: Allowed(t[|chs|], |chs|, ch)
    ensures forall ch :: Allowed(t[|chs|], |chs|, ch) ==>
      Addressable(t[|chs|]) && ProcessPlayer(t[|chs|], |chs|, ch).Some?
  {
    RunIsGood(gs, es, i);
    var bs :| Inv(gs[i].s, bs, 0);
    OpenedKeepsInv(gs[i].s, bs);
    TraceKeepsInv(t, chs, bs, |chs|);
    var some := Completion.SomeChoice(t[|chs|], |chs|);
    forall ch | Allowed(t[|chs|], |chs|, ch)
      ensures Addressable(t[|chs|]) && ProcessPlayer(t[|chs|], |chs|, ch).Some?
    {
      TraceNeverExits(t, chs, bs, ch);
    }
  }

  /** What holds at every point of every run, with or without hazards: the slots agree with their
      holders, and every tile the engine looks up exists. */
  ghost predicate Steady(g: Game) {
    SlotsAgree(g) && Addressable(g.s)
  }

  lemma ClientKeepsSteady(g: Game, p: nat, op: Operation, h: Game)
    requires Steady(g) && Next(g, Client(p, op), h)
    ensures Steady(h)
  {
    assert Alive(h.s.players[p].status) ==> Alive(g.s.players[p].status);
  }

  lemma {:induction false} RunIsSteady(gs: seq<Game>, es: seq<Event>, i: nat)
    requires Run(gs, es) && i < |gs|
    ensures Steady(gs[i])
    decreases i
  {
    if i > 0 {
      RunIsSteady(gs, es, i - 1);
      var g := gs[i - 1];
      assert Next(g, es[i - 1], gs[i - 1 + 1]);
      match es[i - 1]
      case Client(p, op) => ClientKeepsSteady(g, p, op, gs[i]);
      case Players(t, chs) =>
        TraceKeepsSlots(g, t, chs, MAX_PLAYERS);
        TraceKeepsAddressable(t, chs, MAX_PLAYERS);
      case Rest(u, picks) => FieldKeepsAddressable(g.s, u, picks);
    }
  }

  /** In every run, wherever the loop over the players stands, the random searches have some
      outcome, and whatever they return the process exits exactly if the next player is stranded. */
  lemma RunExitsIffStranded(gs: seq<Game>, es: seq<Event>, i: nat, t: seq<State>, chs: seq<Choice>)
    requires Run(gs, es) && i < |gs| && !gs[i].sweeping
    requires PlayersTrace(t, chs) && t[0] == Opened(gs[i].s) && |chs| < MAX_PLAYERS
    ensures Addressable(t[|chs|]) && exists ch :: Allowed(t[|chs|], |chs|, ch)
    ensures forall ch :: Allowed(t[|chs|], |chs|, ch) ==>
      (ProcessPlayer(t[|chs|], |chs|, ch) == None <==> Stranded(t[|chs|], |chs|))
  {
    RunIsSteady(gs, es, i);
    TraceKeepsAddressable(t, chs, |chs|);
    var some := Completion.SomeChoice(t[|chs|], |chs|);
    forall ch | Allowed(t[|chs|], |chs|, ch)
      ensures ProcessPlayer(t[|chs|], |chs|, ch) == None <==> Stranded(t[|chs|], |chs|)
    {
      ExitIff(t[|chs|], |chs|, ch);
    }
  }

  /** In every run a tick that has begun comes to the end of the loop over the players or to the
      exit. */
  lemma TickCompletesOrExits(gs: seq<Game>, es: seq<Event>, i: nat, t: seq<State>, chs: seq<Choice>)
    returns (t': seq<State>, chs': seq<Choice>, ch: Choice)
    requires Run(gs, es) && i < |gs| && !gs[i].sweeping
    requires PlayersTrace(t, chs) && t[0] == Opened(gs[i].s) && |chs| <= MAX_PLAYERS
    ensures PlayersTrace(t', chs') && |chs| <= |chs'| <= MAX_PLAYERS && t'[..|t|] == t && chs'[..|chs|] == chs
    ensures if |chs'| == MAX_PLAYERS then TickPlayers(gs[i].s, t', chs') else Leaves(t'[|chs'|], |chs'|, ch)
  {
    RunIsSteady(gs, es, i);
    t', chs', ch := Completion.CompleteOrExit(t, chs, MAX_PLAYERS);
    assert t'[0] == t'[..|t|][0];
  }

  /** And the rest of the tick is always possible. */
  lemma SweepCompletes(gs: seq<Game>, es: seq<Event>, i: nat) returns (u: seq<State>, picks: seq<Option<Coord>>)
    requires Run(gs, es) && i < |gs| && gs[i].sweeping
    ensures TickField(gs[i].s, u, picks)
  {
    RunIsSteady(gs, es, i);
    u, picks := Completion.SomeField(gs[i].s);
  }

  /** A run may be continued by any event that is possible. */
  lemma RunGrows(gs: seq<Game>, es: seq<Event>, e: Event, h: Game)
    requires Run(gs, es) && Next(gs[|es|], e, h)
    ensures Run(gs + [h], es + [e])
    ensures NoHazards(es) && (e.Players? ==> HazardFree(e.t)) ==> NoHazards(es + [e])
  {
    var gs', es' := gs + [h], es + [e];
    forall i | 0 <= i < |es'| ensures Next(gs'[i], es'[i], gs'[i + 1]) {
      if i < |es| {
        assert Next(gs[i], es[i], gs[i + 1]);
      }
    }
  }

  /** The game after a client's operation. */
  function Operated(g: Game, p: nat, op: Operation): Game
    requires p < |g.s.players| && p < |g.held|
  {
    g.(s := g.s.PutPlayer(p, Operate(g.s.players[p], op)),
       held := if op.Register? then g.held[p := true] else if op.Unregister? then g.held[p := false] else g.held)
  }

  lemma ClientGrows(gs: seq<Game>, es: seq<Event>, p: nat, op: Operation) returns (gs': seq<Game>, es': seq<Event>)
    requires Run(gs, es) && gs[|es|].s.Fit() && |gs[|es|].held| == MAX_PLAYERS && p < MAX_PLAYERS
    requires op.Register? ==> gs[|es|].s.players[p].status == NotConnected
    requires op.Unregister? ==> gs[|es|].held[p]
    ensures Run(gs', es') && (NoHazards(es) ==> NoHazards(es')) && es' == es + [Client(p, op)]
    ensures gs' == gs + [Operated(gs[|es|], p, op)]
  {
    var h := Operated(gs[|es|], p, op);
    RunGrows(gs, es, Client(p, op), h);
    gs', es' := gs + [h], es + [Client(p, op)];
  }

  /** At every point of a run, a player owns tiles exactly if it is playing, paused or
      disconnecting. */
  lemma OwnsTilesIffAlive(gs: seq<Game>, es: seq<Event>, i: nat, p: nat)
    requires Run(gs, es) && NoHazards(es) && i < |gs| && p < MAX_PLAYERS
    ensures gs[i].s.Fit()
    ensures OwnedTiles(gs[i].s.grid, p) != {} <==> Alive(gs[i].s.players[p].status)
  {
    RunIsGood(gs, es, i);
    var s := gs[i].s;
    var bs :| Inv(s, bs, 0);
    assert BodyOf(s, p, bs[p], 0);
    if Alive(s.players[p].status) {
      assert Link(s, p, bs[p], 0);
      assert bs[p][0] in OwnedTiles(s.grid, p);
    } else if c :| c in OwnedTiles(s.grid, p) {
      var j := OwnTileInBody(s, bs, 0, p, c);
      assert false;
    }
  }

  /** A slot is handed out only when nobody holds it and no body tile of it is left. */
  lemma RegisterTakesFreeSlot(gs: seq<Game>, es: seq<Event>, i: nat)
    requires Run(gs, es) && NoHazards(es) && i < |es| && es[i].Client? && es[i].op.Register?
    ensures es[i].p < |gs[i].held| && !gs[i].held[es[i].p]
    ensures OwnedTiles(gs[i].s.grid, es[i].p) == {}
  {
    RunIsGood(gs, es, i);
    assert Next(gs[i], es[i], gs[i + 1]);
    OwnsTilesIffAlive(gs, es, i, es[i].p);
  }

  /** In every run, with or without hazards, the walls never move. */
  lemma {:induction false} RunKeepsWalls(gs: seq<Game>, es: seq<Event>, i: nat)
    requires Run(gs, es) && i < |gs|
    ensures gs[i].s.Fit() && Conservation.Walls(gs[i].s.grid) == Conservation.Walls(gs[0].s.grid)
    decreases i
  {
    if i > 0 {
      RunKeepsWalls(gs, es, i - 1);
      var g := gs[i - 1];
      assert Next(gs[i - 1], es[i - 1], gs[i - 1 + 1]);
      match es[i - 1]
      case Client(p, op) =>
      case Players(t, chs) =>
        TraceFits(t, chs, MAX_PLAYERS);
        Conservation.TraceKeeps(t, chs, MAX_PLAYERS);
      case Rest(u, picks) =>
        SweepFacts(g.s, 0, 0);
        assert Conservation.Walls(Swept(g.s).grid) == Conservation.Walls(g.s.grid);
        Conservation.RefillsKeep(u, picks, |picks|);
        RefillsFit(u, picks, |picks|);
    }
  }

  /** In every run the field keeps its size. */
  lemma {:induction false} RunKeepsDims(gs: seq<Game>, es: seq<Event>, i: nat)
    requires Run(gs, es) && i < |gs|
    ensures gs[i].s.Fit() && gs[i].s.grid.dims == gs[0].s.grid.dims
    decreases i
  {
    if i > 0 {
      RunKeepsDims(gs, es, i - 1);
      assert Next(gs[i - 1], es[i - 1], gs[i - 1 + 1]);
      match es[i - 1]
      case Client(p, op) =>
      case Players(t, chs) => TraceKeepsDims(t, chs, MAX_PLAYERS);
      case Rest(u, picks) =>
        SweepFacts(gs[i - 1].s, 0, 0);
        RefillsSame(u, picks, |picks|);
        RefillsFit(u, picks, |picks|);
    }
  }

  lemma {:induction false} RefillsFit(t: seq<State>, picks: seq<Option<Coord>>, i: nat)
    requires FruitsTrace(t, picks) && t[0].Fit() && i < |t|
    ensures t[i].Fit()
  {
    if i > 0 {
      RefillsFit(t, picks, i - 1);
      assert Refill(t[i - 1], picks[i - 1], t[i - 1 + 1]);
    }
  }

  /** In every run without a hazard no state of a tick holds more changes than the changelog. */
  lemma RunNeverOverflows(gs: seq<Game>, es: seq<Event>, i: nat, j: nat)
    requires Run(gs, es) && NoHazards(es) && i < |es|
    ensures es[i].Players? && j < |es[i].t| ==> |es[i].t[j].log| <= MAX_CHANGELOG_SIZE
    ensures es[i].Rest? && j < |es[i].u| ==> |es[i].u[j].log| <= MAX_CHANGELOG_SIZE
  {
    RunIsGood(gs, es, i);
    assert Next(gs[i], es[i], gs[i + 1]);
    var s := gs[i].s;
    match es[i]
    case Client(p, op) =>
    case Players(t, chs) =>
      var bs :| Inv(s, bs, 0);
      OpenedKeepsInv(s, bs);
      if j < |t| {
        Budget.TraceCost(t, chs, j);
        Budget.LivingBound(t[j].players, j);
      }
    case Rest(u, picks) =>
      Budget.SweptCost(s);
      SweepFacts(s, 0, 0);
      if j < |u| {
        Budget.RefillCost(u, picks, j);
      }
  }

  /** When the players have been processed, with hazards or without, the log and the fruits owed
      are at most three entries for each slot. */
  lemma {:induction false} RunOwesLittle(gs: seq<Game>, es: seq<Event>, i: nat)
    requires Run(gs, es) && i < |gs|
    ensures gs[i].s.Fit() && (gs[i].sweeping ==> Budget.Owed(gs[i].s) <= 3 * MAX_PLAYERS)
    decreases i
  {
    RunIsSteady(gs, es, i);
    if i > 0 {
      RunOwesLittle(gs, es, i - 1);
      assert Next(gs[i - 1], es[i - 1], gs[i - 1 + 1]);
      match es[i - 1]
      case Client(p, op) =>
      case Players(t, chs) =>
        Budget.TraceCost(t, chs, MAX_PLAYERS);
        Budget.LivingBound(t[MAX_PLAYERS].players, MAX_PLAYERS);
      case Rest(u, picks) =>
    }
  }

  /** In every run, with hazards or without, the loop over the players never overflows the
      changelog, and the rest of the tick can overflow it only on a field whose size leaves less
      than two entries for each slot. */
  lemma SmallFieldNeverOverflows(gs: seq<Game>, es: seq<Event>, i: nat, j: nat)
    requires Run(gs, es) && i < |es|
    ensures es[i].Players? && j < |es[i].t| ==> |es[i].t[j].log| <= 3 * MAX_PLAYERS <= MAX_CHANGELOG_SIZE
    ensures Size(gs[0].s.grid.dims) + 2 * MAX_PLAYERS <= MAX_MAP_WIDTH * MAX_MAP_HEIGHT ==>
      es[i].Rest? && j < |es[i].u| ==>
      |es[i].u[j].log| <= MAX_CHANGELOG_SIZE
  {
    RunOwesLittle(gs, es, i);
    RunKeepsDims(gs, es, i);
    assert Next(gs[i], es[i], gs[i + 1]);
    var s := gs[i].s;
    match es[i]
    case Client(p, op) =>
    case Players(t, chs) =>
      if j < |t| {
        Budget.TraceCost(t, chs, j);
        Budget.LivingBound(t[j].players, j);
      }
    case Rest(u, picks) =>
      Budget.SweptCost(s);
      Budget.DeadTilesBound(s.grid);
      SweepFacts(s, 0, 0);
      if j < |u| {
        Budget.RefillCost(u, picks, j);
      }
  }
}
