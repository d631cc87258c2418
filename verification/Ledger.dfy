/** The fruits of a whole run, and what clients' operations lead to (server/server.c,
    libsnake/player/player_manager.c). */
module Ledger {
  import opened Torus
  import opened Options
  import opened Changes
  import opened Engine
  import opened Operations
  import opened Ticks
  import opened Exits
  import opened Conservation
  import opened Survival
  import opened Runs
  import Budget

  /** The players about to join. */
  ghost function Joiners(players: seq<Player>): set<nat> {
    set p | 0 <= p < |players| && players[p].status == Joining
  }

  lemma JoinersWithout(a: seq<Player>, b: seq<Player>, p: nat)
    requires |a| == |b| && p < |a| && b[p].status != Joining
    requires forall q :: 0 <= q < |a| && q != p ==> b[q] == a[q]
    ensures |Joiners(b)| + (if a[p].status == Joining then 1 else 0) == |Joiners(a)|
  {
    assert Joiners(b) == Joiners(a) - {p};
    assert p in Joiners(a) <==> a[p].status == Joining;
  }

  lemma JoiningEnds(s: State, p: nat, ch: Choice, r: State)
    requires Step(s, p, ch, r)
    ensures r.Fit() && r.players[p].status != Joining
  {
    SlotAfter(s, p, ch, r);
  }

  lemma StepJoiners(s: State, p: nat, ch: Choice, r: State)
    requires Step(s, p, ch, r)
    ensures Brought(s, p, ch) + |Joiners(r.players)| <= |Joiners(s.players)|
  {
    StepIsLocal(s, p, ch, r);
    JoiningEnds(s, p, ch, r);
    JoinersWithout(s.players, r.players, p);
  }

  /** Processing players makes no fruit that a joining player did not stand for. */
  lemma {:induction false} TraceJoiners(t: seq<State>, chs: seq<Choice>, i: nat)
    requires PlayersTrace(t, chs) && i <= |chs|
    ensures BroughtBy(t, chs, i) + |Joiners(t[i].players)| <= |Joiners(t[0].players)|
  {
    if i > 0 {
      var p := i - 1;
      TraceJoiners(t, chs, p);
      assert Step(t[p], p, chs[p], t[p + 1]);
      StepJoiners(t[p], p, chs[p], t[i]);
      assert BroughtBy(t, chs, i) == BroughtBy(t, chs, p) + Brought(t[p], p, chs[p]);
    }
  }

  /** The fruits on the field, those owed to it while a tick is under way, and those that joining
      players may bring. */
  ghost function Account(g: Game): nat {
    |Fruits(g.s.grid)| + (if g.sweeping then g.s.eaten else 0) + |Joiners(g.s.players)|
  }

  /** How often a client has registered in the first i events. */
  ghost function Registers(es: seq<Event>, i: nat): nat
    requires i <= |es|
  {
    if i == 0 then 0 else Registers(es, i - 1) + if es[i - 1].Client? && es[i - 1].op.Register? then 1 else 0
  }

  lemma ClientAccount(g: Game, p: nat, op: Operation, h: Game)
    requires Next(g, Client(p, op), h)
    ensures Account(h) <= Account(g) + if op.Register? then 1 else 0
  {
    var before, after := Joiners(g.s.players), Joiners(h.s.players);
    WhoWaits(g.s.players[p], op);
    if op.Register? {
      assert after == before + {p};
    } else {
      assert after <= before;
      Budget.Subset(after, before);
    }
  }

  lemma PlayersAccount(g: Game, t: seq<State>, chs: seq<Choice>, h: Game)
    requires Next(g, Players(t, chs), h)
    ensures Account(h) <= Account(g)
  {
    TraceKeeps(t, chs, MAX_PLAYERS);
    TraceJoiners(t, chs, MAX_PLAYERS);
    assert Fruits(t[0].grid) == Fruits(g.s.grid);
  }

  lemma RestAccount(g: Game, u: seq<State>, picks: seq<Option<Coord>>, h: Game)
    requires Next(g, Rest(u, picks), h) && g.s.Fit()
    ensures Account(h) <= Account(g)
  {
    SweepFacts(g.s, 0, 0);
    assert Fruits(Swept(g.s).grid) == Fruits(g.s.grid);
    RefillsKeep(u, picks, |picks|);
    RefillsSame(u, picks, |picks|);
  }

  lemma NextAccount(g: Game, e: Event, h: Game)
    requires Next(g, e, h) && g.s.Fit()
    ensures Account(h) <= Account(g) + if e.Client? && e.op.Register? then 1 else 0
  {
    match e
    case Client(p, op) => ClientAccount(g, p, op, h);
    case Players(t, chs) => PlayersAccount(g, t, chs, h);
    case Rest(u, picks) => RestAccount(g, u, picks, h);
  }

  /** In every run, hazards or not, there are never more fruits, owed or on the field, and players
      to bring one than clients have registered: respawning brings none. */
  lemma {:induction false} FruitsComeFromRegistering(gs: seq<Game>, es: seq<Event>, i: nat)
    requires Run(gs, es) && i < |gs|
    ensures Account(gs[i]) <= Registers(es, i)
    decreases i
  {
    if i == 0 {
      assert Fruits(gs[0].s.grid) == {} && Joiners(gs[0].s.players) == {};
    } else {
      FruitsComeFromRegistering(gs, es, i - 1);
      RunIsSteady(gs, es, i - 1);
      assert Next(gs[i - 1], es[i - 1], gs[i - 1 + 1]);
      NextAccount(gs[i - 1], es[i - 1], gs[i]);
    }
  }

  /** From event i to event j no player is processed, and the slot of p is left alone. */
  ghost predicate Untouched(es: seq<Event>, i: nat, j: nat, p: nat) {
    i <= j <= |es| && forall k :: i <= k < j ==> !es[k].Players? && (es[k].Client? ==> es[k].p != p)
  }

  lemma {:induction false} SlotWaits(gs: seq<Game>, es: seq<Event>, i: nat, j: nat, p: nat)
    requires Run(gs, es) && Untouched(es, i, j, p) && p < MAX_PLAYERS
    ensures Addressable(gs[i].s) && Addressable(gs[j].s) && gs[j].s.grid.dims == gs[i].s.grid.dims
    ensures var s, r := gs[i].s, gs[j].s;
      r.players[p] == s.players[p] && r.head[p] == s.head[p] && r.tail[p] == s.tail[p]
    decreases j
  {
    RunIsSteady(gs, es, i);
    if i < j {
      SlotWaits(gs, es, i, j - 1, p);
      RunIsSteady(gs, es, j);
      assert Next(gs[j - 1], es[j - 1], gs[j - 1 + 1]);
      if es[j - 1].Rest? {
        SweepFacts(gs[j - 1].s, 0, 0);
        RefillsSame(es[j - 1].u, es[j - 1].picks, |es[j - 1].picks|);
      }
    }
  }

  /** The slot and the head of p before a tick, its last operation being event i, and the state
      when its turn comes. */
  lemma TurnComes(gs: seq<Game>, es: seq<Event>, i: nat, j: nat, p: nat)
    requires Run(gs, es) && i < j < |es| && es[i].Client? && es[i].p == p && es[j].Players?
    requires Untouched(es, i + 1, j, p)
    ensures p < MAX_PLAYERS && Addressable(gs[i].s) && Addressable(gs[j].s) && gs[j + 1].s.Fit()
    ensures TickPlayers(gs[j].s, es[j].t, es[j].chs) && gs[j + 1].s == es[j].t[MAX_PLAYERS]
    ensures gs[j].s.players[p] == Operate(gs[i].s.players[p], es[i].op)
    ensures gs[j].s.head[p] == gs[i].s.head[p] && gs[j].s.tail[p] == gs[i].s.tail[p]
    ensures gs[j].s.grid.dims == gs[i].s.grid.dims
  {
    RunIsSteady(gs, es, i);
    RunIsSteady(gs, es, j + 1);
    assert Next(gs[i], es[i], gs[i + 1]) && Next(gs[j], es[j], gs[j + 1]);
    SlotWaits(gs, es, i + 1, j, p);
  }

  /** A paused player that is unpaused, and a playing one that turns, moves its head in its
      direction in the next tick or dies in it. */
  lemma MovesAgain(gs: seq<Game>, es: seq<Event>, i: nat, j: nat, p: nat, d: Direction)
    requires Run(gs, es) && i < j < |es| && es[j].Players? && Untouched(es, i + 1, j, p)
    requires gs[i].s.Fit() && p < MAX_PLAYERS
    requires (es[i] == Client(p, Unpause) && gs[i].s.players[p] == Player(Paused, d))
          || (es[i] == Client(p, Turn(d)) && gs[i].s.players[p].status == Playing)
    ensures gs[j + 1].s.Fit() && gs[i].s.grid.dims.Has(gs[i].s.head[p])
    ensures var r := gs[j + 1].s;
      || (r.players[p] == Player(Playing, d) && r.head[p] == Move(gs[i].s.grid.dims, gs[i].s.head[p], d))
      || r.players[p] == Player(PlayerDead, d)
  {
    TurnComes(gs, es, i, j, p);
    WhoSurvivesTick(gs[j].s, es[j].t, es[j].chs, p);
  }

  /** A player that pauses stays where it is in the next tick, and lives. */
  lemma PausedRests(gs: seq<Game>, es: seq<Event>, i: nat, j: nat, p: nat)
    requires Run(gs, es) && i < j < |es| && es[j].Players? && Untouched(es, i + 1, j, p)
    requires gs[i].s.Fit() && p < MAX_PLAYERS
    requires es[i] == Client(p, Pause) && gs[i].s.players[p].status == Playing
    ensures gs[j + 1].s.Fit()
    ensures var s, r := gs[i].s, gs[j + 1].s;
      r.players[p] == s.players[p].(status := Paused) && r.head[p] == s.head[p] && r.tail[p] == s.tail[p]
  {
    TurnComes(gs, es, i, j, p);
    WhoSurvivesTick(gs[j].s, es[j].t, es[j].chs, p);
  }

  /** A dead player that respawns plays again after the next tick exactly if there is a place for
      it when its turn comes, and brings no fruit. */
  lemma RespawnsAlone(gs: seq<Game>, es: seq<Event>, i: nat, j: nat, p: nat)
    requires Run(gs, es) && i < j < |es| && es[j].Players? && Untouched(es, i + 1, j, p)
    requires gs[i].s.Fit() && p < MAX_PLAYERS
    requires es[i] == Client(p, Respawn) && gs[i].s.players[p].status == PlayerDead
    ensures |es[j].t| == |es[j].chs| + 1 == MAX_PLAYERS + 1 && es[j].t[p].Fit() && gs[j + 1].s.Fit()
    ensures gs[j + 1].s.players[p].status == if HasRoom(es[j].t[p].grid) then Playing else PlayerDead
    ensures Brought(es[j].t[p], p, es[j].chs[p]) == 0
  {
    TurnComes(gs, es, i, j, p);
    WhoSurvivesTick(gs[j].s, es[j].t, es[j].chs, p);
  }
}
