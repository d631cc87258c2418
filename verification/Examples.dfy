/** Runs with a single player: it joins, and what its client does next. */
module SinglePlayer {
  import opened Torus
  import opened Field
  import opened Changes
  import opened Engine
  import opened Operations
  import opened Chains
  import opened Ticks
  import opened Runs
  import opened SlotWindow
  import Completion

  const SIZE := Dims(10, 10)

  function EmptyGame(): Game {
    var tiles := map r, c | 0 <= r < 10 && 0 <= c < 10 :: Coord(r, c) := Tile(0, Empty, 0);
    var corners := seq(MAX_PLAYERS, _ => Coord(0, 0));
    var players := seq(MAX_PLAYERS, _ => Player(NotConnected, Up));
    Game(State(Grid(SIZE, tiles), players, corners, corners, [], 0, false, true), seq(MAX_PLAYERS, _ => false), false)
  }

  /** Everybody but player 0 is absent, and no snake is on the field. */
  ghost predicate Awaits(g: Game) {
    && g.s.Fit() && g.s.grid.dims == SIZE && g.s.players[0].status == Joining
    && (forall p :: 0 < p < MAX_PLAYERS ==> g.s.players[p].status == NotConnected)
    && forall c :: c in g.s.grid.tiles ==> g.s.grid.tiles[c].kind == Empty
  }

  lemma FirstEvent() returns (g: Game, h: Game)
    ensures Initial(g) && Next(g, Client(0, Register), h) && Awaits(h) && !h.sweeping && h.held[0]
    ensures g.s.grid == h.s.grid && |h.held| == MAX_PLAYERS
  {
    g := EmptyGame();
    h := g.(s := g.s.PutPlayer(0, Player(Joining, Up)), held := g.held[0 := true]);
  }

  /** Nobody who was not playing before a tick meets a hazard in it. */
  lemma NewcomersAreSafe(s: State, t: seq<State>, chs: seq<Choice>)
    requires Snakes(s) && TickPlayers(s, t, chs)
    requires forall p :: 0 <= p < MAX_PLAYERS ==> s.players[p].status != Playing
    ensures HazardFree(t)
  {
    var bs :| Inv(s, bs, 0);
    OpenedKeepsInv(s, bs);
    forall p | 0 <= p < MAX_PLAYERS ensures t[p].Fit() && !Hazard(t[p], p) {
      UntouchedBetween(t, chs, bs, p, 0, p);
    }
  }

  /** The status of player 0 after a tick is that after its own step. */
  lemma FirstPlayerAfter(s: State, t: seq<State>, chs: seq<Choice>)
    requires Snakes(s) && TickPlayers(s, t, chs)
    ensures t[MAX_PLAYERS].Fit() && Step(Opened(s), 0, chs[0], t[1]) && t[1].Fit()
    ensures t[MAX_PLAYERS].players[0] == t[1].players[0]
  {
    var bs :| Inv(s, bs, 0);
    OpenedKeepsInv(s, bs);
    assert Step(t[0], 0, chs[0], t[0 + 1]);
    UntouchedBetween(t, chs, bs, 0, 1, MAX_PLAYERS);
  }

  /** On an empty field a joining player finds a place. */
  lemma JoinSucceeds(s: State, ch: Choice, r: State)
    requires s.Fit() && s.grid.dims == SIZE && s.players[0].status == Joining && Step(s, 0, ch, r)
    requires forall c :: c in s.grid.tiles ==> s.grid.tiles[c].kind == Empty
    ensures r.Fit() && r.players[0].status == Playing
  {
    assert SIZE.Has(Coord(0, 0)) && IsKind(s.grid, Move(SIZE, Coord(0, 0), Up), Empty);
    assert SpawnSpot(s.grid, Coord(0, 0));
  }

  /** Either nobody plays or nobody joins. */
  ghost predicate Calm(s: State) {
    && s.Fit()
    && ((forall p :: 0 <= p < MAX_PLAYERS ==> s.players[p].status != Playing)
        || (forall p :: 0 <= p < MAX_PLAYERS ==> s.players[p].status != Joining))
  }

  /** A calm game goes on with some tick, up to the release of the slots. */
  lemma PlayersEvent(gs: seq<Game>, es: seq<Event>) returns (gs': seq<Game>, es': seq<Event>)
    requires Run(gs, es) && NoHazards(es) && !gs[|es|].sweeping
    requires Calm(gs[|es|].s)
    ensures Run(gs', es') && NoHazards(es') && |es'| == |es| + 1 && es'[|es|].Players?
    ensures gs'[..|gs|] == gs && es'[..|es|] == es
  {
    var g := gs[|es|];
    RunIsGood(gs, es, |es|);
    var bs :| Inv(g.s, bs, 0);
    var t, chs := Completion.SomePlayers(g.s, bs);
    if forall p :: 0 <= p < MAX_PLAYERS ==> g.s.players[p].status != Playing {
      NewcomersAreSafe(g.s, t, chs);
    } else {
      NoJoinNoHazard(g.s, t, chs);
    }
    RunGrows(gs, es, Players(t, chs), g.(s := t[MAX_PLAYERS], sweeping := true));
    gs', es' := gs + [g.(s := t[MAX_PLAYERS], sweeping := true)], es + [Players(t, chs)];
  }

  lemma RestEvent(gs: seq<Game>, es: seq<Event>) returns (gs': seq<Game>, es': seq<Event>)
    requires Run(gs, es) && NoHazards(es) && gs[|es|].sweeping
    ensures Run(gs', es') && NoHazards(es') && |es'| == |es| + 1 && es'[|es|].Rest?
    ensures gs'[..|gs|] == gs && es'[..|es|] == es
    ensures gs'[|es'|].s.players == gs[|es|].s.players && !gs'[|es'|].sweeping && gs'[|es'|].held == gs[|es|].held
  {
    var g := gs[|es|];
    RunIsGood(gs, es, |es|);
    var bs :| Inv(g.s, bs, 0);
    var u, picks := Completion.SomeField(g.s);
    FieldKeepsSnakes(g.s, u, picks, bs, 0);
    RunGrows(gs, es, Event.Rest(u, picks), g.(s := u[|picks|], sweeping := false));
    gs', es' := gs + [g.(s := u[|picks|], sweeping := false)], es + [Event.Rest(u, picks)];
  }

  /** One client registers, and its snake is put on the field. */
  lemma FirstPlayers() returns (gs: seq<Game>, es: seq<Event>)
    ensures Run(gs, es) && NoHazards(es) && |es| == 2 && gs[2].s.Fit() && gs[2].sweeping
    ensures es[0] == Client(0, Register) && es[1].Players?
    ensures |gs[2].held| == MAX_PLAYERS && gs[2].held[0] && gs[2].s.players[0].status == Playing
    ensures forall p :: 0 < p < MAX_PLAYERS ==> gs[2].s.players[p].status == NotConnected
    ensures forall c :: c in gs[0].s.grid.tiles ==> gs[0].s.grid.tiles[c].kind == Empty
  {
    var g, h := FirstEvent();
    RunGrows([g], [], Client(0, Register), h);
    assert [g] + [h] == [g, h] && [] + [Client(0, Register)] == [Client(0, Register)];
    assert forall p :: 0 <= p < MAX_PLAYERS ==> h.s.players[p].status != Playing;
    gs, es := PlayersEvent([g, h], [Client(0, Register)]);
    assert gs[..2][0] == g && gs[..2][1] == h && es[..1][0] == Client(0, Register);
    RunIsGood(gs, es, 1);
    assert Next(gs[1], es[1], gs[1 + 1]);
    FirstPlayerAfter(h.s, es[1].t, es[1].chs);
    JoinSucceeds(Opened(h.s), es[1].chs[0], es[1].t[1]);
    OthersStayAway(h.s, es[1].t, es[1].chs);
  }

  lemma FirstTick() returns (gs: seq<Game>, es: seq<Event>)
    ensures Run(gs, es) && NoHazards(es) && |es| == 3 && !gs[3].sweeping && gs[3].s.Fit()
    ensures es[0] == Client(0, Register) && es[1].Players? && es[2].Rest?
    ensures |gs[3].held| == MAX_PLAYERS && gs[3].held[0] && gs[3].s.players[0].status == Playing
    ensures forall p :: 0 < p < MAX_PLAYERS ==> gs[3].s.players[p].status == NotConnected
    ensures forall c :: c in gs[0].s.grid.tiles ==> gs[0].s.grid.tiles[c].kind == Empty
  {
    var gs2, es2 := FirstPlayers();
    gs, es := RestEvent(gs2, es2);
    assert gs[..3][0] == gs2[0] && es[..2][0] == es2[0] && es[..2][1] == es2[1];
    RunIsGood(gs, es, 3);
  }

  /** An absent player stays absent during a tick. */
  lemma OthersStayAway(s: State, t: seq<State>, chs: seq<Choice>)
    requires Snakes(s) && TickPlayers(s, t, chs)
    ensures s.Fit() && t[MAX_PLAYERS].Fit()
    ensures forall p :: 0 <= p < MAX_PLAYERS && s.players[p].status == NotConnected ==>
      t[MAX_PLAYERS].players[p].status == NotConnected
  {
    var bs :| Inv(s, bs, 0);
    OpenedKeepsInv(s, bs);
    TraceKeepsInv(t, chs, bs, MAX_PLAYERS);
    forall p | 0 <= p < MAX_PLAYERS && s.players[p].status == NotConnected
      ensures t[MAX_PLAYERS].players[p].status == NotConnected
    {
      UntouchedBetween(t, chs, bs, p, 0, p);
      assert Step(t[p], p, chs[p], t[p + 1]);
      UntouchedBetween(t, chs, bs, p, p + 1, MAX_PLAYERS);
    }
  }

  lemma DisconnectingGoes(s: State, t: seq<State>, chs: seq<Choice>)
    requires Snakes(s) && s.Fit() && NoDead(s.grid) && TickPlayers(s, t, chs) && s.players[0].status == Disconnecting
    ensures t[MAX_PLAYERS].Fit() && t[MAX_PLAYERS].players[0].status == NotConnected
    ensures DeadOf(t[MAX_PLAYERS].grid, 0)
  {
    FirstPlayerAfter(s, t, chs);
    PlayersLeaveDead(s, t, chs, 0);
  }

  /** The client leaves, and its snake is killed in the next tick. */
  lemma LeaveAndDie() returns (gs: seq<Game>, es: seq<Event>)
    ensures Run(gs, es) && NoHazards(es) && |es| == 5 && gs[5].sweeping && gs[5].s.Fit()
    ensures |gs[5].held| == MAX_PLAYERS && gs[5].s.players[0].status == NotConnected
    ensures DeadOf(gs[5].s.grid, 0)
  {
    gs, es := FirstTick();
    var gs4, es4 := ClientGrows(gs, es, 0, Unregister);
    var h := gs4[4];
    assert h == Operated(gs[3], 0, Unregister) && h.s.players[0].status == Disconnecting;
    assert forall p :: 0 <= p < MAX_PLAYERS ==> h.s.players[p].status != Joining;
    gs, es := PlayersEvent(gs4, es4);
    assert gs[4] == gs[..5][4] == h;
    assert Next(gs[4], es[4], gs[4 + 1]);
    RunIsGood(gs, es, 4);
    DisconnectingGoes(h.s, es[4].t, es[4].chs);
  }

  /** A run without any hazard in which a slot is handed out while dead tiles of its last player
      are on the field: another client registers before the sweep. */
  lemma SlotHandedOutBeforeSweep() returns (gs: seq<Game>, es: seq<Event>)
    ensures Run(gs, es) && NoHazards(es) && |es| == 6
    ensures es[5] == Client(0, Register) && gs[5].sweeping && DeadOf(gs[5].s.grid, 0)
  {
    var gs5, es5 := LeaveAndDie();
    gs, es := ClientGrows(gs5, es5, 0, Register);
    assert gs[5] == gs5[5];
  }
}

/** A client that copies the changelog too late: a concrete run of the server and of one sending
    thread (server/client_connection.c, libsnake/changelog/syn_changelog.c). */
module LateLog {
  import opened Torus
  import opened Field
  import opened Options
  import opened Changes
  import opened Engine
  import opened Operations
  import Runs
  import opened Histories
  import opened Mirrors
  import opened SinglePlayer

  /** Nobody moves, joins or leaves. */
  ghost predicate Idle(s: State) {
    s.Fit() && forall p :: 0 <= p < MAX_PLAYERS ==> s.players[p].status == Paused || s.players[p].status == NotConnected
  }

  lemma {:induction false} IdleTrace(s: State, t: seq<State>, chs: seq<Choice>, i: nat)
    requires Idle(s) && TickPlayers(s, t, chs) && i <= MAX_PLAYERS
    ensures t[i] == Opened(s).(noneAlive := t[i].noneAlive)
  {
    if i > 0 {
      IdleTrace(s, t, chs, i - 1);
      assert Step(t[i - 1], i - 1, chs[i - 1], t[i - 1 + 1]);
    }
  }

  /** An idle tick changes no tile and logs nothing. */
  lemma IdleTick(s: State, t: seq<State>, chs: seq<Choice>, u: seq<State>, picks: seq<Option<Coord>>)
    requires Idle(s) && TickPlayers(s, t, chs) && TickField(t[MAX_PLAYERS], u, picks)
    ensures u[|picks|].grid == s.grid && u[|picks|].log == []
  {
    IdleTrace(s, t, chs, MAX_PLAYERS);
  }

  /** Two ticks: in the first a player joins, the second is idle. */
  ghost predicate TwoTicks(gs: seq<Runs.Game>, es: seq<Runs.Event>) {
    && Runs.Run(gs, es) && Runs.NoHazards(es) && |es| == 6
    && es[0].Client? && es[1].Players? && es[2].Rest? && es[3].Client? && es[4].Players? && es[5].Rest?
    && gs[0].s.grid.tiles != gs[3].s.grid.tiles == gs[6].s.grid.tiles && gs[6].s.log == []
  }

  lemma JoiningShows(gs: seq<Runs.Game>, es: seq<Runs.Event>)
    requires Runs.Run(gs, es) && Runs.NoHazards(es) && |es| >= 3
    requires gs[3].s.Fit() && gs[3].s.players[0].status == Playing
    requires forall c :: c in gs[0].s.grid.tiles ==> gs[0].s.grid.tiles[c].kind == Empty
    ensures gs[0].s.grid.tiles != gs[3].s.grid.tiles
  {
    Runs.OwnsTilesIffAlive(gs, es, 3, 0);
    var c :| c in OwnedTiles(gs[3].s.grid, 0);
  }

  lemma PausedRun() returns (gs: seq<Runs.Game>, es: seq<Runs.Event>)
    ensures Runs.Run(gs, es) && Runs.NoHazards(es) && |es| == 4 && !gs[4].sweeping && Idle(gs[4].s)
    ensures es[0].Client? && es[1].Players? && es[2].Rest? && es[3].Client?
    ensures gs[0].s.grid.tiles != gs[3].s.grid.tiles == gs[4].s.grid.tiles
  {
    var gs3, es3 := FirstTick();
    JoiningShows(gs3, es3);
    gs, es := Runs.ClientGrows(gs3, es3, 0, Pause);
    assert gs[4] == Runs.Operated(gs3[3], 0, Pause);
    assert gs[0] == gs3[0] && gs[3] == gs3[3] && es[0] == es3[0] && es[1] == es3[1] && es[2] == es3[2];
  }

  lemma Begins<T>(a: seq<T>, b: seq<T>)
    requires |a| <= |b| && b[..|a|] == a
    ensures forall i :: 0 <= i < |a| ==> b[i] == a[i]
  {
    forall i | 0 <= i < |a| ensures b[i] == a[i] {
      assert b[..|a|][i] == b[i];
    }
  }

  /** An idle tick after a run changes no tile. */
  lemma IdleEnd(gs: seq<Runs.Game>, es: seq<Runs.Event>) returns (gs': seq<Runs.Game>, es': seq<Runs.Event>)
    requires Runs.Run(gs, es) && Runs.NoHazards(es) && !gs[|es|].sweeping && Idle(gs[|es|].s)
    ensures Runs.Run(gs', es') && Runs.NoHazards(es') && |es'| == |es| + 2
    ensures es'[|es|].Players? && es'[|es| + 1].Rest?
    ensures (forall i :: 0 <= i < |gs| ==> gs'[i] == gs[i]) && forall i :: 0 <= i < |es| ==> es'[i] == es[i]
    ensures gs'[|es'|].s.grid == gs[|es|].s.grid && gs'[|es'|].s.log == []
  {
    var n := |es|;
    var gs1, es1 := PlayersEvent(gs, es);
    Begins(gs, gs1);
    Begins(es, es1);
    assert Runs.Next(gs1[n], es1[n], gs1[n + 1]);
    gs', es' := RestEvent(gs1, es1);
    Begins(gs1, gs');
    Begins(es1, es');
    assert Runs.Next(gs'[n + 1], es'[n + 1], gs'[n + 1 + 1]);
    IdleTick(gs[n].s, es1[n].t, es1[n].chs, es'[n + 1].u, es'[n + 1].picks);
  }

  lemma JoinThenPause() returns (gs: seq<Runs.Game>, es: seq<Runs.Event>)
    ensures TwoTicks(gs, es)
  {
    var gs4, es4 := PausedRun();
    gs, es := IdleEnd(gs4, es4);
  }

  /** A tick publishes its field and its log. */
  lemma TickPublishes(gs: seq<Runs.Game>, es: seq<Runs.Event>, i: nat)
    requires |gs| == |es| + 1 && i + 3 <= |es| && es[i].Client? && es[i + 1].Players? && es[i + 2].Rest?
    ensures Published(gs, es, i + 3) == Published(gs, es, i).Add(gs[i + 3].s.grid.tiles, gs[i + 3].s.log)
  {
    assert Published(gs, es, i + 1) == Published(gs, es, i);
    assert Published(gs, es, i + 2) == Published(gs, es, i);
  }

  lemma TwoTicksPublish(gs: seq<Runs.Game>, es: seq<Runs.Event>)
    requires |gs| == 7 && |es| == 6
    requires es[0].Client? && es[1].Players? && es[2].Rest? && es[3].Client? && es[4].Players? && es[5].Rest?
    ensures Published(gs, es, 6) ==
      History([gs[0].s.grid.tiles, gs[3].s.grid.tiles, gs[6].s.grid.tiles], [[], gs[3].s.log, gs[6].s.log])
  {
    TickPublishes(gs, es, 0);
    TickPublishes(gs, es, 3);
    assert Published(gs, es, 0) == History([gs[0].s.grid.tiles], [[]]);
  }

  lemma PublishedTwice(gs: seq<Runs.Game>, es: seq<Runs.Event>)
    requires TwoTicks(gs, es)
    ensures var h := Published(gs, es, 6);
      h.Valid() && h.maps == [gs[0].s.grid.tiles, gs[3].s.grid.tiles, gs[6].s.grid.tiles] && h.logs[2] == []
  {
    RunPublishesHistory(gs, es, 6);
    TwoTicksPublish(gs, es);
  }

  /** The sending thread wakes for the first tick and copies the log only after the second has
      replaced it. */
  lemma Late(h: History) returns (ms: seq<System>, acts: seq<Action>)
    requires h.Valid() && |h.maps| == 3 && h.logs[2] == []
    ensures Happens(h, ms, acts) && |acts| == 7
    ensures (forall i :: 0 <= i < 6 ==> Timely(ms[i], acts[i])) && acts[6] == SendLog && !Timely(ms[6], acts[6])
    ensures ms[7].seen == 2 && ms[7].last == 1 && ms[7].phase == Waiting && ms[7].mirror == h.maps[0]
  {
    var m := System(0, 0, Registered, 0, map[], 0);
    var m1 := m.(phase := Observing);
    var m2 := ShowMap(h, m1);
    var m3 := m2.(version := 1);
    var m4 := m3.(tick := 1);
    var m5 := m4.(phase := Woken(1), last := 1);
    var m6 := m5.(version := 2);
    ms := [m, m1, m2, m3, m4, m5, m6, ShowLog(h, m6)];
    acts := [Observe, SendFirstMap, Publish, Announce, Wake, Publish, SendLog];
  }

  /** A run of the game without any hazard, and a sending thread that is late once: afterwards the
      client's mirror is not the field whose log it applied, nor any other field the server has
      had since the tick last observed. */
  lemma LateLogDiverges() returns (gs: seq<Runs.Game>, es: seq<Runs.Event>, ms: seq<System>, acts: seq<Action>)
    ensures Runs.Run(gs, es) && Runs.NoHazards(es)
    ensures var h := Published(gs, es, |es|);
      && h.Valid() && Happens(h, ms, acts) && |acts| > 0
      && (forall i :: 0 <= i < |acts| - 1 ==> Timely(ms[i], acts[i]))
      && ms[|acts|].phase == Waiting && ms[|acts|].last <= ms[|acts|].seen < |h.maps|
      && forall v :: ms[|acts|].last <= v < |h.maps| ==> ms[|acts|].mirror != h.maps[v]
  {
    gs, es := JoinThenPause();
    PublishedTwice(gs, es);
    ms, acts := Late(Published(gs, es, 6));
  }
}

/** Concrete runs of the game: a scene lists the tiles that are not empty and the first three
    players, and each lemma takes a step of the engine from one scene to the next. */
module Scenes {
  import opened Torus
  import opened Field
  import opened Options
  import opened Changes
  import opened Engine
  import opened Operations
  import opened Chains
  import opened Ticks
  import opened Runs
  import Flood

  const FIELD := Dims(10, 10)
  const NO_CHOICE := Choice(None, None)

  datatype Scene = Scene(cells: map<Coord, Tile>, players: seq<Player>, head: seq<Coord>, tail: seq<Coord>)

  /** The field holds the cells, bodies with their orders, and is empty elsewhere. */
  ghost predicate Drawn(g: Grid, cells: map<Coord, Tile>) {
    && g.Valid() && g.dims == FIELD && (forall c :: c in cells ==> FIELD.Has(c))
    && forall c :: FIELD.Has(c) ==> DrawnAt(g, cells, c)
  }

  ghost predicate DrawnAt(g: Grid, cells: map<Coord, Tile>, c: Coord) {
    && c in g.tiles
    && if c !in cells then g.tiles[c].kind == Empty
       else g.tiles[c].kind == cells[c].kind && (cells[c].kind == Body ==> g.tiles[c] == cells[c])
  }

  predicate Formed(v: Scene) {
    && |v.players| == |v.head| == |v.tail| == 3
    && (forall p :: 0 <= p < 3 && Alive(v.players[p].status) ==> FIELD.Has(v.head[p]) && FIELD.Has(v.tail[p]))
    && forall c :: c in v.cells && v.cells[c].kind == Body ==>
         v.cells[c].player < 3 && Alive(v.players[v.cells[c].player].status)
  }

  ghost predicate Shows(s: State, v: Scene) {
    && s.Fit() && Formed(v) && Drawn(s.grid, v.cells)
    && (forall p :: 0 <= p < 3 ==> s.players[p] == v.players[p])
    && (forall p :: 0 <= p < 3 && Alive(v.players[p].status) ==> s.head[p] == v.head[p] && s.tail[p] == v.tail[p])
    && forall p :: 3 <= p < MAX_PLAYERS ==> s.players[p].status == NotConnected
  }

  lemma ShowsAddressable(s: State, v: Scene)
    requires Shows(s, v)
    ensures Addressable(s)
  {
    forall c | c in s.grid.tiles && s.grid.tiles[c].kind == Body
      ensures s.grid.tiles[c].player < MAX_PLAYERS && Alive(s.players[s.grid.tiles[c].player].status)
    {
      assert DrawnAt(s.grid, v.cells, c);
    }
  }

  /** A step of player p that leaves the others alone. */
  lemma Reshown(s: State, v: Scene, r: State, w: Scene, p: nat)
    requires Shows(s, v) && r.Fit() && Formed(w) && Drawn(r.grid, w.cells) && p < 3
    requires forall q :: 0 <= q < MAX_PLAYERS && q != p ==>
      r.players[q] == s.players[q] && r.head[q] == s.head[q] && r.tail[q] == s.tail[q]
    requires forall q :: 0 <= q < 3 && q != p ==>
      w.players[q] == v.players[q] && w.head[q] == v.head[q] && w.tail[q] == v.tail[q]
    requires r.players[p] == w.players[p]
    requires Alive(w.players[p].status) ==> r.head[p] == w.head[p] && r.tail[p] == w.tail[p]
    ensures Shows(r, w)
  {
  }

  /** The neighbour search sees the cells only. */
  lemma LowestDrawn(g: Grid, cells: map<Coord, Tile>, p: nat, c: Coord)
    requires Drawn(g, cells) && FIELD.Has(c)
    ensures LowestNeighbor(g, p, c) == LowestNeighbor(Grid(FIELD, cells), p, c)
  {
    forall d ensures Owned(g, p, Move(FIELD, c, d)) <==> Owned(Grid(FIELD, cells), p, Move(FIELD, c, d)) {
      assert DrawnAt(g, cells, Move(FIELD, c, d));
    }
    assert forall x :: Owned(g, p, x) ==> DrawnAt(g, cells, x);
  }

  /** The scene after player p has moved its head to n, and after its tail tile is cleared. */
  function Moved(v: Scene, p: nat, n: Coord): map<Coord, Tile>
    requires Formed(v) && p < 3 && v.head[p] in v.cells
  {
    v.cells[n := Tile(v.cells[v.head[p]].order + 1, Body, p)]
  }

  function Cleared(v: Scene, p: nat, n: Coord): map<Coord, Tile>
    requires Formed(v) && p < 3 && v.head[p] in v.cells
  {
    var m := Moved(v, p, n);
    if n != v.tail[p] && Owned(Grid(FIELD, v.cells), p, v.tail[p]) then m - {v.tail[p]} else m
  }

  /** What every plain move of the run starts from. */
  ghost predicate Moves(s: State, v: Scene, p: nat, n: Coord) {
    && Shows(s, v) && Addressable(s) && p < 3 && v.players[p].status == Playing
    && v.head[p] in v.cells && v.cells[v.head[p]].kind == Body && n == Move(FIELD, v.head[p], v.players[p].direction)
  }

  lemma ClearedDrawn(s: State, v: Scene, p: nat, n: Coord)
    requires Moves(s, v, p, n)
    ensures Cached(s, p) && Drawn(ClearTail(MoveHead(s, p, n), p).grid, Cleared(v, p, n))
  {
    AdvancedGrid(s, p, n);
    var g := ClearTail(MoveHead(s, p, n), p).grid;
    forall c | FIELD.Has(c) ensures DrawnAt(g, Cleared(v, p, n), c) {
      ClearedDrawnAt(s, v, p, n, g, c);
    }
  }

  lemma ClearedDrawnAt(s: State, v: Scene, p: nat, n: Coord, g: Grid, c: Coord)
    requires Moves(s, v, p, n) && Cached(s, p) && FIELD.Has(c) && c in g.tiles
    requires g.tiles[c] == AdvancedTile(s, p, n, c)
    ensures DrawnAt(g, Cleared(v, p, n), c)
  {
    assert DrawnAt(s.grid, v.cells, v.head[p]) && DrawnAt(s.grid, v.cells, v.tail[p]) && DrawnAt(s.grid, v.cells, c);
  }

  /** A move after which the player plays on is its step. */
  lemma PlayIsStep(s: State, p: nat, a: State)
    requires Addressable(s) && p < MAX_PLAYERS && s.players[p].status == Playing
    requires Play(s, p) == Some(a) && a.players == s.players
    ensures Step(s, p, NO_CHOICE, a.(noneAlive := false))
  {
  }

  lemma AdvanceIsPlay(s: State, p: nat, n: Coord)
    requires Addressable(s) && p < MAX_PLAYERS && s.players[p].status == Playing
    requires n == NextHead(s, p) && MayAdvance(s, p, n)
    ensures Play(s, p) == Advance(s, p, n)
  {
    PlayCases(s, p);
  }

  lemma EatIsPlay(s: State, p: nat, n: Coord)
    requires Addressable(s) && p < MAX_PLAYERS && s.players[p].status == Playing
    requires n == NextHead(s, p) && s.grid.tiles[n].kind == Fruit
    ensures Play(s, p) == Some(Ate(MoveHead(s, p, n)))
  {
    PlayCases(s, p);
  }

  /** A plain move for which the tail search finds `next`. */
  lemma PlainStep(s: State, v: Scene, p: nat, n: Coord, next: Coord) returns (r: State)
    requires Moves(s, v, p, n) && MayAdvance(s, p, n)
    requires LowestNeighbor(Grid(FIELD, Cleared(v, p, n)), p, v.tail[p]) == Some(next) && FIELD.Has(next)
    requires Formed(v.(cells := Cleared(v, p, n)))
    ensures Step(s, p, NO_CHOICE, r) && r.eaten == s.eaten && r.died == s.died
    ensures Shows(r, v.(cells := Cleared(v, p, n), head := v.head[p := n], tail := v.tail[p := next]))
  {
    AdvanceFinds(s, v, p, n, next);
    AdvanceIsPlay(s, p, n);
    PlayIsStep(s, p, Advance(s, p, n).value);
    r := Advance(s, p, n).value.(noneAlive := false);
    PlainShows(s, v, p, n, next, r);
  }

  lemma PlainShows(s: State, v: Scene, p: nat, n: Coord, next: Coord, r: State)
    requires Moves(s, v, p, n) && FIELD.Has(next) && Formed(v.(cells := Cleared(v, p, n)))
    requires r.Fit() && Drawn(r.grid, Cleared(v, p, n))
    requires r.players == s.players && r.head == s.head[p := n] && r.tail == s.tail[p := next]
    ensures Shows(r, v.(cells := Cleared(v, p, n), head := v.head[p := n], tail := v.tail[p := next]))
  {
    Reshown(s, v, r, v.(cells := Cleared(v, p, n), head := v.head[p := n], tail := v.tail[p := next]), p);
  }

  lemma AdvanceFinds(s: State, v: Scene, p: nat, n: Coord, next: Coord)
    requires Moves(s, v, p, n)
    requires LowestNeighbor(Grid(FIELD, Cleared(v, p, n)), p, v.tail[p]) == Some(next) && FIELD.Has(next)
    ensures Cached(s, p) && Advance(s, p, n).Some? && Drawn(Advance(s, p, n).value.grid, Cleared(v, p, n))
    ensures var a := Advance(s, p, n).value;
      && a.Fit() && a.players == s.players && a.head == s.head[p := n] && a.tail == s.tail[p := next]
      && a.eaten == s.eaten && a.died == s.died
  {
    ClearedDrawn(s, v, p, n);
    LowestDrawn(ClearTail(MoveHead(s, p, n), p).grid, Cleared(v, p, n), p, v.tail[p]);
  }

  /** A plain move for which it finds nothing: the process exits. */
  lemma StuckStep(s: State, v: Scene, p: nat, n: Coord)
    requires Moves(s, v, p, n) && MayAdvance(s, p, n)
    requires LowestNeighbor(Grid(FIELD, Cleared(v, p, n)), p, v.tail[p]) == None
    ensures Allowed(s, p, NO_CHOICE) && ProcessPlayer(s, p, NO_CHOICE) == None
  {
    AdvanceFails(s, v, p, n);
    AdvanceIsPlay(s, p, n);
    NoPlayIsExit(s, p);
  }

  lemma AdvanceFails(s: State, v: Scene, p: nat, n: Coord)
    requires Moves(s, v, p, n)
    requires LowestNeighbor(Grid(FIELD, Cleared(v, p, n)), p, v.tail[p]) == None
    ensures Cached(s, p) && Advance(s, p, n) == None
  {
    ClearedDrawn(s, v, p, n);
    LowestDrawn(ClearTail(MoveHead(s, p, n), p).grid, Cleared(v, p, n), p, v.tail[p]);
  }

  lemma NoPlayIsExit(s: State, p: nat)
    requires Addressable(s) && p < MAX_PLAYERS && s.players[p].status == Playing && Play(s, p) == None
    ensures Allowed(s, p, NO_CHOICE) && ProcessPlayer(s, p, NO_CHOICE) == None
  {
  }

  /** A move onto a fruit. */
  lemma EatStep(s: State, v: Scene, p: nat, n: Coord) returns (r: State)
    requires Moves(s, v, p, n) && n in v.cells && v.cells[n].kind == Fruit
    ensures Step(s, p, NO_CHOICE, r) && r.eaten == s.eaten + 1 && r.died == s.died
    ensures Shows(r, v.(cells := Moved(v, p, n), head := v.head[p := n]))
  {
    EatDrawn(s, v, p, n);
    var a := Ate(MoveHead(s, p, n));
    EatIsPlay(s, p, n);
    PlayIsStep(s, p, a);
    r := a.(noneAlive := false);
    Reshown(s, v, r, v.(cells := Moved(v, p, n), head := v.head[p := n]), p);
  }

  lemma EatDrawn(s: State, v: Scene, p: nat, n: Coord)
    requires Moves(s, v, p, n) && n in v.cells && v.cells[n].kind == Fruit
    ensures n in s.grid.tiles && s.grid.tiles[n].kind == Fruit
    ensures Cached(s, p) && Drawn(MoveHead(s, p, n).grid, Moved(v, p, n))
  {
    assert DrawnAt(s.grid, v.cells, n) && DrawnAt(s.grid, v.cells, v.head[p]);
    forall c | FIELD.Has(c) ensures DrawnAt(MoveHead(s, p, n).grid, Moved(v, p, n), c) {
      assert DrawnAt(s.grid, v.cells, c);
    }
  }

  /** A player with nothing to do. */
  lemma IdleStep(s: State, v: Scene, p: nat) returns (r: State)
    requires Shows(s, v) && p < MAX_PLAYERS
    requires var status := s.players[p].status; status == Paused || status == PlayerDead || status == NotConnected
    ensures Step(s, p, NO_CHOICE, r) && Shows(r, v) && r.eaten == s.eaten && r.died == s.died
    ensures s.players[p].status == NotConnected ==> r == s
  {
    ShowsAddressable(s, v);
    r := if s.players[p].status == Paused then s.(noneAlive := false) else s;
  }

  /** A joining player is put with its head on h, its tail above, and its fruit elsewhere. */
  lemma JoinStep(s: State, v: Scene, p: nat, h: Coord, fruit: Coord) returns (r: State)
    requires Shows(s, v) && p < 3 && v.players[p].status == Joining && FIELD.Has(h) && FIELD.Has(fruit)
    requires h !in v.cells && Move(FIELD, h, Up) !in v.cells && fruit !in v.cells
    requires fruit != h && fruit != Move(FIELD, h, Up)
    ensures Step(s, p, Choice(Some(h), Some(fruit)), r)
    ensures Shows(r, Placed(v, p, h).(cells := Placed(v, p, h).cells[fruit := Tile(0, Fruit, 0)]))
    ensures r.eaten == s.eaten && r.died == s.died
  {
    ShowsAddressable(s, v);
    PlacedShows(s, v, p, h);
    FruitScene(Spawn(s, p, h), Placed(v, p, h), fruit);
    JoinIsStep(s, p, h, fruit);
    r := SpawnFruit(Spawn(s, p, h), Some(fruit)).(noneAlive := false);
  }

  lemma PlacedShows(s: State, v: Scene, p: nat, h: Coord)
    requires Shows(s, v) && p < 3 && FIELD.Has(h) && h !in v.cells && Move(FIELD, h, Up) !in v.cells
    ensures SpawnSpot(s.grid, h) && Shows(Spawn(s, p, h), Placed(v, p, h))
    ensures Spawn(s, p, h).eaten == s.eaten && Spawn(s, p, h).died == s.died
  {
    SpawnDrawn(s, v, p, h);
    Reshown(s, v, Spawn(s, p, h), Placed(v, p, h), p);
  }

  lemma JoinIsStep(s: State, p: nat, h: Coord, fruit: Coord)
    requires Addressable(s) && p < MAX_PLAYERS && s.players[p].status == Joining
    requires s.grid.dims.Has(h) && SpawnSpot(s.grid, h) && Picked(Spawn(s, p, h).grid, FreeSpot, Some(fruit))
    ensures fruit in Spawn(s, p, h).grid.tiles
    ensures Step(s, p, Choice(Some(h), Some(fruit)), SpawnFruit(Spawn(s, p, h), Some(fruit)).(noneAlive := false))
  {
  }

  function Placed(v: Scene, p: nat, h: Coord): Scene
    requires Formed(v) && p < 3 && FIELD.Has(h)
  {
    var t := Move(FIELD, h, Up);
    v.(cells := v.cells[h := Tile(1, Body, p)][t := Tile(0, Body, p)],
       players := v.players[p := Player(Playing, Down)], head := v.head[p := h], tail := v.tail[p := t])
  }

  lemma SpawnDrawn(s: State, v: Scene, p: nat, h: Coord)
    requires Shows(s, v) && p < 3 && FIELD.Has(h) && h !in v.cells && Move(FIELD, h, Up) !in v.cells
    ensures SpawnSpot(s.grid, h) && EmptyNeighbor(s.grid, h) == Some(Up)
    ensures Drawn(Spawn(s, p, h).grid, Placed(v, p, h).cells)
    ensures var r := Spawn(s, p, h);
      && r.players == s.players[p := Player(Playing, Down)] && r.head == s.head[p := h]
      && r.tail == s.tail[p := Move(FIELD, h, Up)] && r.eaten == s.eaten && r.died == s.died
  {
    var t := Move(FIELD, h, Up);
    assert DrawnAt(s.grid, v.cells, h) && DrawnAt(s.grid, v.cells, t);
    forall c | FIELD.Has(c) ensures DrawnAt(Spawn(s, p, h).grid, Placed(v, p, h).cells, c) {
      assert DrawnAt(s.grid, v.cells, c);
    }
  }

  /** The scene after a player whose body is its head and its tail has run into something. */
  function Crashed(v: Scene, p: nat): Scene
    requires Formed(v) && p < 3 && v.head[p] in v.cells && v.tail[p] in v.cells
  {
    var h, t := v.head[p], v.tail[p];
    v.(cells := v.cells[h := v.cells[h].(kind := Dead)][t := v.cells[t].(kind := Dead)],
       players := v.players[p := v.players[p].(status := PlayerDead)])
  }

  ghost predicate Short(v: Scene, p: nat) {
    && Formed(v) && p < 3 && Alive(v.players[p].status)
    && Owned(Grid(FIELD, v.cells), p, v.head[p]) && Owned(Grid(FIELD, v.cells), p, v.tail[p])
    && Adjacent(FIELD, v.head[p], v.tail[p])
    && forall c :: Owned(Grid(FIELD, v.cells), p, c) ==> c == v.head[p] || c == v.tail[p]
  }

  lemma CrashStep(s: State, v: Scene, p: nat, n: Coord) returns (r: State)
    requires Moves(s, v, p, n) && Short(v, p) && n in v.cells && v.cells[n].kind == Body && !MayAdvance(s, p, n)
    ensures Step(s, p, NO_CHOICE, r) && r.eaten == s.eaten && r.died
    ensures Shows(r, Crashed(v, p))
  {
    CrashDrawn(s, v, p);
    CrashedFormed(v, p);
    assert DrawnAt(s.grid, v.cells, n);
    PlayCases(s, p);
    r := Kill(s, p);
    Reshown(s, v, r, Crashed(v, p), p);
  }

  lemma CrashDrawn(s: State, v: Scene, p: nat)
    requires Shows(s, v) && Short(v, p) && Cached(s, p)
    ensures Drawn(Kill(s, p).grid, Crashed(v, p).cells)
  {
    var h, t := v.head[p], v.tail[p];
    assert DrawnAt(s.grid, v.cells, h) && DrawnAt(s.grid, v.cells, t);
    ShortFlood(s.grid, v, p);
    forall c | FIELD.Has(c) ensures DrawnAt(Kill(s, p).grid, Crashed(v, p).cells, c) {
      assert DrawnAt(s.grid, v.cells, c);
    }
  }

  lemma CrashedFormed(v: Scene, p: nat)
    requires Short(v, p)
    ensures Formed(Crashed(v, p))
  {
    forall c | c in Crashed(v, p).cells && Crashed(v, p).cells[c].kind == Body ensures v.cells[c].player != p {
      assert !Owned(Grid(FIELD, v.cells), p, c);
    }
  }

  lemma ShortFlood(g: Grid, v: Scene, p: nat)
    requires Drawn(g, v.cells) && Short(v, p)
    ensures var h, t := v.head[p], v.tail[p];
      forall x :: x in g.tiles ==>
        Flood.Mark(g, p, h).tiles[x] == if x == h || x == t then g.tiles[x].(kind := Dead) else g.tiles[x]
  {
    var h, t := v.head[p], v.tail[p];
    assert DrawnAt(g, v.cells, h) && DrawnAt(g, v.cells, t);
    assert Flood.Walk(g, p, [h], h, h) && Flood.Walk(g, p, [h, t], h, t);
    forall x | x in g.tiles
      ensures Flood.Mark(g, p, h).tiles[x] == if x == h || x == t then g.tiles[x].(kind := Dead) else g.tiles[x]
    {
      Flood.FloodIsExact(g, p, h, x);
      if Flood.Linked(g, p, h, x) {
        var w :| Flood.Walk(g, p, w, h, x);
        assert Owned(g, p, w[|w| - 1]) && DrawnAt(g, v.cells, x);
        assert Owned(Grid(FIELD, v.cells), p, x);
      }
    }
  }

  /** Without the dead cells. */
  function Living(cells: map<Coord, Tile>): map<Coord, Tile> {
    map c | c in cells && cells[c].kind != Dead :: cells[c]
  }

  lemma SweepScene(s: State, v: Scene)
    requires Shows(s, v) && (s.died || Living(v.cells) == v.cells)
    ensures Shows(Swept(s), v.(cells := Living(v.cells))) && Swept(s).eaten == s.eaten
  {
    SweepFacts(s, 0, 0);
    forall c | FIELD.Has(c) ensures DrawnAt(Swept(s).grid, Living(v.cells), c) {
      assert DrawnAt(s.grid, v.cells, c);
    }
  }

  lemma FruitScene(s: State, v: Scene, f: Coord)
    requires Shows(s, v) && FIELD.Has(f) && f !in v.cells
    ensures Picked(s.grid, FreeSpot, Some(f))
    ensures Shows(SpawnFruit(s, Some(f)), v.(cells := v.cells[f := Tile(0, Fruit, 0)]))
  {
    var r := SpawnFruit(s, Some(f));
    assert DrawnAt(s.grid, v.cells, f);
    forall c | FIELD.Has(c) ensures DrawnAt(r.grid, v.cells[f := Tile(0, Fruit, 0)], c) {
      assert DrawnAt(s.grid, v.cells, c);
    }
  }

  /** What a player does in its step, in terms of the scene. */
  datatype Act = Plain(next: Coord) | Eat | Crash | JoinAt(h: Coord, fruit: Coord) | Rests

  function Ahead(v: Scene, p: nat): Coord
    requires Formed(v) && p < 3 && FIELD.Has(v.head[p])
  {
    Move(FIELD, v.head[p], v.players[p].direction)
  }

  predicate CanMove(v: Scene, p: nat) {
    Formed(v) && p < 3 && v.players[p].status == Playing && v.head[p] in v.cells && v.cells[v.head[p]].kind == Body
  }

  /** The tile ahead is empty, or the tail of a later snake that looks at an empty tile. */
  predicate Clear(v: Scene, p: nat)
    requires CanMove(v, p)
  {
    var n := Ahead(v, p);
    n !in v.cells ||
    (v.cells[n].kind == Body &&
     var q := v.cells[n].player;
     q < 3 && p < q && CanMove(v, q) && n == v.tail[q] && Ahead(v, q) !in v.cells)
  }

  /** The act leads from scene v to scene w. */
  ghost predicate Leads(v: Scene, p: nat, act: Act, w: Scene) {
    && Formed(v) && Formed(w) && p < 3
    && match act
       case Plain(next) =>
         CanMove(v, p) && Clear(v, p) && FIELD.Has(next)
         && LowestNeighbor(Grid(FIELD, Cleared(v, p, Ahead(v, p))), p, v.tail[p]) == Some(next)
         && w == v.(cells := Cleared(v, p, Ahead(v, p)), head := v.head[p := Ahead(v, p)], tail := v.tail[p := next])
       case Eat =>
         CanMove(v, p) && Ahead(v, p) in v.cells && v.cells[Ahead(v, p)].kind == Fruit
         && w == v.(cells := Moved(v, p, Ahead(v, p)), head := v.head[p := Ahead(v, p)])
       case Crash =>
         CanMove(v, p) && Short(v, p) && Ahead(v, p) in v.cells && v.cells[Ahead(v, p)].kind == Body
         && v.cells[Ahead(v, p)].player != p && Ahead(v, p) != v.tail[v.cells[Ahead(v, p)].player]
         && w == Crashed(v, p)
       case JoinAt(h, fruit) =>
         v.players[p].status == Joining && FIELD.Has(h) && FIELD.Has(fruit)
         && h !in v.cells && Move(FIELD, h, Up) !in v.cells && fruit !in v.cells
         && fruit != h && fruit != Move(FIELD, h, Up)
         && w == Placed(v, p, h).(cells := Placed(v, p, h).cells[fruit := Tile(0, Fruit, 0)])
       case Rests =>
         w == v && var status := v.players[p].status;
         status == Paused || status == PlayerDead || status == NotConnected
  }

  lemma ClearIsAllowed(s: State, v: Scene, p: nat)
    requires Shows(s, v) && Addressable(s) && CanMove(v, p) && Clear(v, p)
    ensures Moves(s, v, p, Ahead(v, p)) && MayAdvance(s, p, Ahead(v, p))
  {
    var n := Ahead(v, p);
    assert DrawnAt(s.grid, v.cells, n);
    if n in v.cells {
      assert DrawnAt(s.grid, v.cells, Ahead(v, v.cells[n].player));
    }
  }

  lemma CrashIsForced(s: State, v: Scene, p: nat)
    requires Shows(s, v) && Addressable(s) && CanMove(v, p) && Ahead(v, p) in v.cells
    requires v.cells[Ahead(v, p)].kind == Body && v.cells[Ahead(v, p)].player != p
    requires Ahead(v, p) != v.tail[v.cells[Ahead(v, p)].player]
    ensures Moves(s, v, p, Ahead(v, p)) && !MayAdvance(s, p, Ahead(v, p))
  {
    assert DrawnAt(s.grid, v.cells, Ahead(v, p));
  }

  lemma StepTo(s: State, v: Scene, p: nat, act: Act, w: Scene) returns (r: State, ch: Choice)
    requires Shows(s, v) && Leads(v, p, act, w)
    ensures Step(s, p, ch, r) && Shows(r, w)
    ensures r.eaten == s.eaten + (if act.Eat? then 1 else 0) && r.died == (s.died || act.Crash?)
  {
    ShowsAddressable(s, v);
    ch := NO_CHOICE;
    match act
    case Plain(next) =>
      ClearIsAllowed(s, v, p);
      r := PlainStep(s, v, p, Ahead(v, p), next);
    case Eat => r := EatStep(s, v, p, Ahead(v, p));
    case Crash =>
      CrashIsForced(s, v, p);
      r := CrashStep(s, v, p, Ahead(v, p));
    case JoinAt(h, fruit) =>
      ch := Choice(Some(h), Some(fruit));
      r := JoinStep(s, v, p, h, fruit);
    case Rests => r := IdleStep(s, v, p);
  }

  /** A run that has come to a tick boundary at which the game shows the scene. */
  ghost predicate Stands(gs: seq<Game>, es: seq<Event>, v: Scene) {
    && Run(gs, es) && !gs[|es|].sweeping && |gs[|es|].held| == MAX_PLAYERS && Shows(gs[|es|].s, v)
    && forall p :: 0 <= p < 3 ==> (gs[|es|].held[p] <==> HasClient(v.players[p]))
  }

  ghost predicate Longer(gs: seq<Game>, es: seq<Event>, gs': seq<Game>, es': seq<Event>) {
    |gs| <= |gs'| && |es| <= |es'| && gs'[..|gs|] == gs && es'[..|es|] == es
  }

  predicate HasClient(player: Player) {
    player.status != NotConnected && player.status != Disconnecting
  }

  lemma ClientTo(gs: seq<Game>, es: seq<Event>, v: Scene, p: nat, op: Operation, w: Scene)
    returns (gs': seq<Game>, es': seq<Event>)
    requires Stands(gs, es, v) && ClientLeads(v, p, op, w)
    ensures Stands(gs', es', w) && Longer(gs, es, gs', es') && es' == es + [Client(p, op)]
  {
    gs', es' := ClientGrows(gs, es, p, op);
    Reshown(gs[|es|].s, v, gs'[|es'|].s, w, p);
  }

  ghost predicate ClientLeads(v: Scene, p: nat, op: Operation, w: Scene) {
    && Formed(v) && Formed(w) && p < 3 && w == v.(players := v.players[p := Operate(v.players[p], op)])
    && (op.Register? ==> v.players[p].status == NotConnected) && (op.Unregister? ==> HasClient(v.players[p]))
    && (Alive(w.players[p].status) <==> Alive(v.players[p].status))
  }

  lemma TickPart(gs: seq<Game>, es: seq<Event>, t: seq<State>, chs: seq<Choice>)
    returns (gs': seq<Game>, es': seq<Event>)
    requires Run(gs, es) && !gs[|es|].sweeping && TickPlayers(gs[|es|].s, t, chs)
    ensures Run(gs', es') && es' == es + [Players(t, chs)]
    ensures gs' == gs + [gs[|es|].(s := t[MAX_PLAYERS], sweeping := true)]
  {
    var h := gs[|es|].(s := t[MAX_PLAYERS], sweeping := true);
    RunGrows(gs, es, Players(t, chs), h);
    gs', es' := gs + [h], es + [Players(t, chs)];
  }

  lemma FieldPart(gs: seq<Game>, es: seq<Event>, u: seq<State>, picks: seq<Option<Coord>>)
    returns (gs': seq<Game>, es': seq<Event>)
    requires Run(gs, es) && gs[|es|].sweeping && TickField(gs[|es|].s, u, picks)
    ensures Run(gs', es') && es' == es + [Event.Rest(u, picks)]
    ensures gs' == gs + [gs[|es|].(s := u[|picks|], sweeping := false)]
  {
    var h := gs[|es|].(s := u[|picks|], sweeping := false);
    RunGrows(gs, es, Event.Rest(u, picks), h);
    gs', es' := gs + [h], es + [Event.Rest(u, picks)];
  }

  /** The cells after the sweep and the new fruit, if one was eaten. */
  function Refilled(cells: map<Coord, Tile>, fruit: Option<Coord>): map<Coord, Tile> {
    if fruit.None? then Living(cells) else Living(cells)[fruit.value := Tile(0, Fruit, 0)]
  }

  lemma SomeRefill(s: State, v: Scene, fruit: Option<Coord>) returns (u: seq<State>, picks: seq<Option<Coord>>)
    requires Shows(s, v) && (s.died || Living(v.cells) == v.cells) && s.eaten == (if fruit.Some? then 1 else 0)
    requires fruit.Some? ==> FIELD.Has(fruit.value) && fruit.value !in Living(v.cells)
    ensures TickField(s, u, picks) && Shows(u[|picks|], v.(cells := Refilled(v.cells, fruit)))
  {
    SweepScene(s, v);
    var a := Swept(s);
    u, picks := [a], [];
    if fruit.Some? {
      FruitScene(a, v.(cells := Living(v.cells)), fruit.value);
      u, picks := [a, SpawnFruit(a, fruit)], [fruit];
    }
  }

  /** A tick of the first three players, the scenes after each of them, and the fruit put down
      at its end if one was eaten. */
  datatype Script = Script(acts: seq<Act>, mids: seq<Scene>, fruit: Option<Coord>) {
    predicate Whole() {
      |acts| == |mids| == 3
    }

    /** The scene in which player i takes its step. */
    function Before(v: Scene, i: nat): Scene
      requires Whole()
    {
      if i == 0 then v else if i < 3 then mids[i - 1] else mids[2]
    }
  }

  function Eaten(acts: seq<Act>): nat {
    if acts == [] then 0 else Eaten(acts[..|acts| - 1]) + if acts[|acts| - 1].Eat? then 1 else 0
  }

  predicate Crashes(acts: seq<Act>) {
    exists i :: 0 <= i < |acts| && acts[i].Crash?
  }

  ghost predicate Follows(v: Scene, k: Script) {
    k.Whole() && forall i :: 0 <= i < 3 ==> Leads(k.Before(v, i), i, k.acts[i], k.Before(v, i + 1))
  }

  ghost predicate TickLeads(v: Scene, k: Script, w: Scene) {
    && Follows(v, k) && Eaten(k.acts) == (if k.fruit.Some? then 1 else 0)
    && var cells := k.mids[2].cells;
    && (k.fruit.Some? ==> FIELD.Has(k.fruit.value) && k.fruit.value !in Living(cells))
    && (Crashes(k.acts) || Living(cells) == cells) && w == k.mids[2].(cells := Refilled(cells, k.fruit))
    && |w.players| == |v.players| == 3
    && forall p :: 0 <= p < 3 ==> (HasClient(w.players[p]) <==> HasClient(v.players[p]))
  }

  function Count(act: Act): nat {
    if act.Eat? then 1 else 0
  }

  lemma EatenThree(a0: Act, a1: Act, a2: Act)
    ensures Eaten([a0, a1, a2]) == Count(a0) + Count(a1) + Count(a2)
    ensures Crashes([a0, a1, a2]) <==> a0.Crash? || a1.Crash? || a2.Crash?
  {
    var one, two, acts := [a0], [a0, a1], [a0, a1, a2];
    assert one[..|one| - 1] == [] && Eaten(one) == Count(a0);
    assert two[..|two| - 1] == one && Eaten(two) == Count(a0) + Count(a1);
    assert acts[..|acts| - 1] == two;
    assert acts[0] == a0 && acts[1] == a1 && acts[2] == a2;
  }

  lemma PlainLeads(v: Scene, p: nat, n: Coord, next: Coord, w: Scene)
    requires Formed(v) && Formed(w) && CanMove(v, p) && Clear(v, p) && n == Ahead(v, p) && FIELD.Has(next)
    requires w.cells == Cleared(v, p, n) && LowestNeighbor(Grid(FIELD, w.cells), p, v.tail[p]) == Some(next)
    requires w.players == v.players && w.head == v.head[p := n] && w.tail == v.tail[p := next]
    ensures Leads(v, p, Plain(next), w)
  {
  }

  lemma JoinLeads(v: Scene, p: nat, h: Coord, t: Coord, fruit: Coord, w: Scene)
    requires Formed(v) && Formed(w) && p < 3 && v.players[p].status == Joining
    requires FIELD.Has(h) && FIELD.Has(fruit) && t == Move(FIELD, h, Up)
    requires h !in v.cells && t !in v.cells && fruit !in v.cells && fruit != h && fruit != t
    requires w.cells == v.cells[h := Tile(1, Body, p)][t := Tile(0, Body, p)][fruit := Tile(0, Fruit, 0)]
    requires w.players == v.players[p := Player(Playing, Down)]
    requires w.head == v.head[p := h] && w.tail == v.tail[p := t]
    ensures Leads(v, p, JoinAt(h, fruit), w)
  {
  }

  lemma RestLeads(v: Scene, p: nat)
    requires Formed(v) && p < 3
    requires v.players[p].status in {Paused, PlayerDead, NotConnected}
    ensures Leads(v, p, Rests, v)
  {
  }

  lemma LeadsForm(v: Scene, p: nat, act: Act, w: Scene)
    requires Leads(v, p, act, w)
    ensures Formed(v) && Formed(w) && |v.players| == |w.players| == 3
  {
  }

  /** The script has the act and the scenes in place i. */
  predicate Fits(v: Scene, k: Script, i: nat, x: Scene, act: Act, y: Scene) {
    k.Whole() && i < 3 && k.Before(v, i) == x && k.acts[i] == act && k.Before(v, i + 1) == y
  }

  lemma FollowsAt(v: Scene, k: Script, i: nat, x: Scene, act: Act, y: Scene)
    requires Fits(v, k, i, x, act, y) && Leads(x, i, act, y)
    ensures Leads(k.Before(v, i), i, k.acts[i], k.Before(v, i + 1))
  {
  }

  lemma ThreeFit(v: Scene, a0: Act, v1: Scene, a1: Act, v2: Scene, a2: Act, v3: Scene, fruit: Option<Coord>)
    ensures var k := Script([a0, a1, a2], [v1, v2, v3], fruit);
      Fits(v, k, 0, v, a0, v1) && Fits(v, k, 1, v1, a1, v2) && Fits(v, k, 2, v2, a2, v3)
  {
  }

  lemma ThreeFollow(v: Scene, a0: Act, v1: Scene, a1: Act, v2: Scene, a2: Act, v3: Scene, fruit: Option<Coord>)
    requires Leads(v, 0, a0, v1) && Leads(v1, 1, a1, v2) && Leads(v2, 2, a2, v3)
    ensures Follows(v, Script([a0, a1, a2], [v1, v2, v3], fruit))
  {
    var k := Script([a0, a1, a2], [v1, v2, v3], fruit);
    ThreeFit(v, a0, v1, a1, v2, a2, v3, fruit);
    FollowsAt(v, k, 0, v, a0, v1);
    FollowsAt(v, k, 1, v1, a1, v2);
    FollowsAt(v, k, 2, v2, a2, v3);
  }

  lemma FollowedTick(v: Scene, k: Script, last: Scene, w: Scene)
    requires Follows(v, k) && k.mids[2] == last && Eaten(k.acts) == (if k.fruit.Some? then 1 else 0)
    requires k.fruit.Some? ==> FIELD.Has(k.fruit.value) && k.fruit.value !in Living(last.cells)
    requires Crashes(k.acts) || Living(last.cells) == last.cells
    requires w == last.(cells := Refilled(last.cells, k.fruit))
    requires forall p :: 0 <= p < 3 && p < |v.players| && p < |last.players| ==>
      (HasClient(last.players[p]) <==> HasClient(v.players[p]))
    ensures TickLeads(v, k, w)
  {
    LeadsForm(k.Before(v, 0), 0, k.acts[0], k.Before(v, 1));
    LeadsForm(k.Before(v, 2), 2, k.acts[2], k.Before(v, 3));
  }

  /** Three acts make a tick. */
  lemma TickIs(v: Scene, a0: Act, v1: Scene, a1: Act, v2: Scene, a2: Act, v3: Scene, fruit: Option<Coord>, w: Scene)
    requires Follows(v, Script([a0, a1, a2], [v1, v2, v3], fruit)) && Formed(v) && Formed(v3)
    requires Count(a0) + Count(a1) + Count(a2) == (if fruit.Some? then 1 else 0)
    requires fruit.Some? ==> FIELD.Has(fruit.value) && fruit.value !in Living(v3.cells)
    requires a0.Crash? || a1.Crash? || a2.Crash? || Living(v3.cells) == v3.cells
    requires w == v3.(cells := Refilled(v3.cells, fruit))
    requires forall p :: 0 <= p < 3 ==> (HasClient(v3.players[p]) <==> HasClient(v.players[p]))
    ensures TickLeads(v, Script([a0, a1, a2], [v1, v2, v3], fruit), w)
  {
    EatenThree(a0, a1, a2);
    FollowedTick(v, Script([a0, a1, a2], [v1, v2, v3], fruit), v3, w);
  }

  lemma OpenedShows(s: State, v: Scene)
    requires Shows(s, v)
    ensures Shows(Opened(s), v)
  {
  }

  function Done(k: Script, n: nat): seq<Act>
    requires k.Whole()
  {
    if n <= 3 then k.acts[..n] else k.acts
  }

  lemma OneMore(acts: seq<Act>, n: nat)
    requires n < |acts|
    ensures Eaten(acts[..n + 1]) == Eaten(acts[..n]) + Count(acts[n])
    ensures Crashes(acts[..n + 1]) <==> Crashes(acts[..n]) || acts[n].Crash?
  {
    var a, b := acts[..n], acts[..n + 1];
    assert |b| == n + 1 && b[n] == acts[n];
    assert b[..n] == a;
    if Crashes(a) {
      var i :| 0 <= i < |a| && a[i].Crash?;
      assert b[i].Crash?;
    }
    if Crashes(b) {
      var i :| 0 <= i < |b| && b[i].Crash?;
      assert i == n || a[i].Crash?;
    }
    if acts[n].Crash? {
      assert b[n].Crash?;
    }
  }

  lemma DoneNext(k: Script, p: nat)
    requires k.Whole() && p < 3
    ensures Eaten(Done(k, p + 1)) == Eaten(Done(k, p)) + Count(k.acts[p])
    ensures Crashes(Done(k, p + 1)) <==> Crashes(Done(k, p)) || k.acts[p].Crash?
  {
    OneMore(k.acts, p);
  }

  lemma DoneAll(k: Script, p: nat)
    requires k.Whole() && 3 <= p
    ensures Done(k, p + 1) == Done(k, p)
  {
    assert k.acts[..3] == k.acts;
  }

  /** Players from 3 on are absent. */
  lemma PerformAbsent(s: State, v: Scene, p: nat)
    requires Shows(s, v) && 3 <= p < MAX_PLAYERS
    ensures Step(s, p, NO_CHOICE, s)
  {
    var r := IdleStep(s, v, p);
  }

  lemma Follow(v: Scene, k: Script, p: nat)
    requires Follows(v, k) && p < 3
    ensures Leads(k.Before(v, p), p, k.acts[p], k.Before(v, p + 1))
  {
  }

  /** One more player along the script. */
  lemma PerformNext(s: State, v: Scene, k: Script, p: nat) returns (r: State, ch: Choice)
    requires Follows(v, k) && p < MAX_PLAYERS && Shows(s, k.Before(v, p))
    requires s.eaten == Eaten(Done(k, p)) && (s.died <==> Crashes(Done(k, p)))
    ensures Step(s, p, ch, r) && Shows(r, k.Before(v, p + 1))
    ensures r.eaten == Eaten(Done(k, p + 1)) && (r.died <==> Crashes(Done(k, p + 1)))
  {
    if p < 3 {
      Follow(v, k, p);
      DoneNext(k, p);
      r, ch := StepTo(s, k.Before(v, p), p, k.acts[p], k.Before(v, p + 1));
    } else {
      r, ch := s, NO_CHOICE;
      DoneAll(k, p);
      PerformAbsent(s, k.mids[2], p);
    }
  }

  lemma {:induction false} Perform(s: State, v: Scene, k: Script, n: nat) returns (t: seq<State>, chs: seq<Choice>)
    requires Shows(s, v) && Follows(v, k) && n <= MAX_PLAYERS
    ensures PlayersTrace(t, chs) && |chs| == n && t[0] == Opened(s)
    ensures forall i :: 0 <= i <= n ==> Shows(t[i], k.Before(v, i))
    ensures t[n].eaten == Eaten(Done(k, n)) && (t[n].died <==> Crashes(Done(k, n)))
    decreases n
  {
    if n == 0 {
      OpenedShows(s, v);
      t, chs := [Opened(s)], [];
    } else {
      var p := n - 1;
      t, chs := Perform(s, v, k, p);
      var r, ch := PerformNext(t[p], v, k, p);
      ExtendTrace(t, chs, ch, r);
      t, chs := t + [r], chs + [ch];
    }
  }

  lemma ScriptTick(s: State, v: Scene, k: Script, w: Scene)
    returns (t: seq<State>, chs: seq<Choice>, u: seq<State>, picks: seq<Option<Coord>>)
    requires Shows(s, v) && TickLeads(v, k, w)
    ensures TickPlayers(s, t, chs) && Shows(t[2], k.mids[1])
    ensures TickField(t[MAX_PLAYERS], u, picks) && Shows(u[|picks|], w)
  {
    t, chs := Perform(s, v, k, MAX_PLAYERS);
    assert Shows(t[2], k.Before(v, 2)) && Shows(t[MAX_PLAYERS], k.Before(v, MAX_PLAYERS));
    u, picks := SomeRefill(t[MAX_PLAYERS], k.mids[2], k.fruit);
  }

  /** A whole tick. */
  lemma TickTo(gs: seq<Game>, es: seq<Event>, v: Scene, k: Script, w: Scene) returns (gs': seq<Game>, es': seq<Event>)
    requires Stands(gs, es, v) && TickLeads(v, k, w)
    ensures Stands(gs', es', w) && Longer(gs, es, gs', es') && |es'| == |es| + 2
    ensures es'[|es|].Players? && es'[|es| + 1].Rest?
    ensures |es'[|es|].t| == MAX_PLAYERS + 1 && Shows(es'[|es|].t[2], k.mids[1])
  {
    var t, chs, u, picks := ScriptTick(gs[|es|].s, v, k, w);
    gs', es' := TwoParts(gs, es, t, chs, u, picks);
  }

  lemma TwoParts(
      gs: seq<Game>, es: seq<Event>, t: seq<State>, chs: seq<Choice>, u: seq<State>, picks: seq<Option<Coord>>)
    returns (gs': seq<Game>, es': seq<Event>)
    requires Run(gs, es) && !gs[|es|].sweeping && TickPlayers(gs[|es|].s, t, chs)
    requires TickField(t[MAX_PLAYERS], u, picks)
    ensures Run(gs', es') && Longer(gs, es, gs', es') && |es'| == |es| + 2
    ensures es'[|es|] == Players(t, chs) && es'[|es| + 1] == Event.Rest(u, picks)
    ensures gs'[|es'|] == gs[|es|].(s := u[|picks|])
  {
    var gs1, es1 := TickPart(gs, es, t, chs);
    gs', es' := FieldPart(gs1, es1, u, picks);
    assert gs'[..|gs|] == gs1[..|gs|] == gs && es'[..|es|] == es1[..|es|] == es;
  }
}

/** A run of the game with the event of Chains.Hazard, and what becomes of the snake it happens
    to (server/server.c). Snake 0 follows snake 2; player 1 joins in between, and its fruit lands
    in front of snake 2. */
module HazardExample {
  import opened Torus
  import opened Field
  import opened Options
  import opened Changes
  import opened Engine
  import opened Operations
  import opened Chains
  import opened Ticks
  import opened Exits
  import opened Runs
  import opened Scenes
  import opened SinglePlayer

  const A := Coord(5, 5)
  const B := Coord(6, 5)
  const C := Coord(6, 6)
  const X := Coord(5, 6)
  const BEHIND := Coord(4, 5)
  const LAST := Coord(3, 5)
  const CORNER := Coord(0, 0)
  const EDGE := Coord(9, 0)
  const FRUIT := Tile(0, Fruit, 0)

  function Piece(order: nat, p: nat): Tile {
    Tile(order, Body, p)
  }

  const NOBODY := Player(NotConnected, Up)
  const JOINS := Player(Joining, Up)
  const DOWNWARD := Player(Playing, Down)
  const SLEEPS := Player(Paused, Down)
  const CRASHED := Player(PlayerDead, Down)

  /** Before the first tick. */
  function Waits(first: Player, second: Player, third: Player): Scene {
    Scene(map[], [first, second, third], [CORNER, CORNER, CORNER], [CORNER, CORNER, CORNER])
  }

  /** Snake 0 lies in column 5, and player 2 is about to join. */
  const S0A: Scene := Scene(
    map[BEHIND := Piece(1, 0), LAST := Piece(0, 0), Coord(0, 8) := FRUIT],
    [DOWNWARD, NOBODY, JOINS], [BEHIND, CORNER, CORNER], [LAST, CORNER, CORNER])

  /** Snake 0 lies right behind snake 2 in column 5, both heading down. */
  const S1: Scene := Scene(
    map[BEHIND := Piece(1, 0), LAST := Piece(0, 0), Coord(0, 8) := FRUIT,
        B := Piece(1, 2), A := Piece(0, 2), Coord(0, 7) := FRUIT],
    [DOWNWARD, NOBODY, DOWNWARD], [BEHIND, CORNER, B], [LAST, CORNER, A])

  /** Snake 2 has turned and player 1 is about to join. */
  function S2(): Scene {
    S1.(players := [DOWNWARD, JOINS, Player(Playing, Right)])
  }

  /** Snake 0 has taken the tail A of snake 2. */
  const S2A: Scene := Scene(
    map[A := Piece(2, 0), BEHIND := Piece(1, 0), B := Piece(1, 2), Coord(0, 8) := FRUIT, Coord(0, 7) := FRUIT],
    [DOWNWARD, JOINS, Player(Playing, Right)], [A, CORNER, B], [BEHIND, CORNER, A])

  /** Player 1 has joined and its fruit lies at C. */
  const S2B: Scene := Scene(
    map[A := Piece(2, 0), BEHIND := Piece(1, 0), B := Piece(1, 2), Coord(0, 8) := FRUIT, Coord(0, 7) := FRUIT,
        CORNER := Piece(1, 1), EDGE := Piece(0, 1), C := FRUIT],
    [DOWNWARD, DOWNWARD, Player(Playing, Right)], [A, CORNER, B], [BEHIND, EDGE, A])

  /** Snake 2 has eaten it. */
  const S2C: Scene := Scene(
    map[A := Piece(2, 0), BEHIND := Piece(1, 0), B := Piece(1, 2), Coord(0, 8) := FRUIT, Coord(0, 7) := FRUIT,
        CORNER := Piece(1, 1), EDGE := Piece(0, 1), C := Piece(2, 2)],
    [DOWNWARD, DOWNWARD, Player(Playing, Right)], [A, CORNER, C], [BEHIND, EDGE, A])

  /** A new fruit lies at X. */
  function S3(): Scene {
    S2C.(cells := S2C.cells[X := FRUIT])
  }

  lemma Nobody() returns (gs: seq<Game>, es: seq<Event>)
    ensures Stands(gs, es, Waits(NOBODY, NOBODY, NOBODY)) && |es| == 0
  {
    var g := EmptyGame();
    gs, es := [g], [];
    forall c | FIELD.Has(c) ensures DrawnAt(g.s.grid, map[], c) {
      assert Coord(c.row, c.col) == c;
    }
  }

  lemma MayRegister(v: Scene, p: nat, w: Scene)
    requires Formed(v) && Formed(w) && p < 3 && v.players[p] == NOBODY && w == v.(players := v.players[p := JOINS])
    ensures ClientLeads(v, p, Register, w)
  {
  }

  lemma MayLeave(v: Scene, p: nat, w: Scene)
    requires Formed(v) && Formed(w) && p < 3 && v.players[p] == JOINS && w == v.(players := v.players[p := NOBODY])
    ensures ClientLeads(v, p, Unregister, w)
  {
  }

  ghost predicate ClientsOnly(es: seq<Event>) {
    forall i :: 0 <= i < |es| ==> es[i].Client?
  }

  lemma TwoClients(gs: seq<Game>, es: seq<Event>, v: Scene, p: nat, op: Operation, w: Scene,
                   q: nat, op': Operation, x: Scene) returns (gs': seq<Game>, es': seq<Event>)
    requires Stands(gs, es, v) && ClientsOnly(es) && ClientLeads(v, p, op, w) && ClientLeads(w, q, op', x)
    ensures Stands(gs', es', x) && ClientsOnly(es')
  {
    var gs1, es1 := ClientTo(gs, es, v, p, op, w);
    gs', es' := ClientTo(gs1, es1, w, q, op', x);
  }

  lemma FirstTwo() returns (gs: seq<Game>, es: seq<Event>)
    ensures Stands(gs, es, Waits(JOINS, JOINS, NOBODY)) && ClientsOnly(es)
  {
    var v0, v1, v2 := Waits(NOBODY, NOBODY, NOBODY), Waits(JOINS, NOBODY, NOBODY), Waits(JOINS, JOINS, NOBODY);
    MayRegister(v0, 0, v1);
    MayRegister(v1, 1, v2);
    var gs0, es0 := Nobody();
    gs, es := TwoClients(gs0, es0, v0, 0, Register, v1, 1, Register, v2);
  }

  /** Three clients register and the second leaves again. */
  lemma Opening() returns (gs: seq<Game>, es: seq<Event>)
    ensures Stands(gs, es, Waits(JOINS, NOBODY, JOINS)) && ClientsOnly(es)
  {
    var v2, v3, v4 := Waits(JOINS, JOINS, NOBODY), Waits(JOINS, JOINS, JOINS), Waits(JOINS, NOBODY, JOINS);
    MayRegister(v2, 2, v3);
    MayLeave(v3, 1, v4);
    var gs0, es0 := FirstTwo();
    gs, es := TwoClients(gs0, es0, v2, 2, Register, v3, 1, Unregister, v4);
  }

  const FIRST_TICK := Script([JoinAt(BEHIND, Coord(0, 8)), Rests, JoinAt(B, Coord(0, 7))], [S0A, S0A, S1], None)

  lemma FirstPlace()
    ensures LAST == Move(FIELD, BEHIND, Up)
    ensures S0A.cells == map[][BEHIND := Tile(1, Body, 0)][LAST := Tile(0, Body, 0)][Coord(0, 8) := FRUIT]
  {
  }

  lemma FirstJoins()
    ensures Leads(Waits(JOINS, NOBODY, JOINS), 0, JoinAt(BEHIND, Coord(0, 8)), S0A)
  {
    FirstPlace();
    FormedS0A();
    JoinLeads(Waits(JOINS, NOBODY, JOINS), 0, BEHIND, LAST, Coord(0, 8), S0A);
  }

  lemma FormedS0A()
    ensures Formed(S0A)
  {
  }

  lemma FormedS1()
    ensures Formed(S1)
  {
  }

  lemma ThirdPlace()
    ensures A == Move(FIELD, B, Up)
    ensures S1.cells == S0A.cells[B := Tile(1, Body, 2)][A := Tile(0, Body, 2)][Coord(0, 7) := FRUIT]
  {
  }

  lemma ThirdJoins()
    ensures Leads(S0A, 2, JoinAt(B, Coord(0, 7)), S1)
  {
    FormedS0A();
    FormedS1();
    ThirdPlace();
    JoinLeads(S0A, 2, B, A, Coord(0, 7), S1);
  }

  lemma NoneDead(cells: map<Coord, Tile>)
    requires forall c :: c in cells ==> cells[c].kind != Dead
    ensures Living(cells) == cells
  {
  }

  lemma FirstTick()
    ensures TickLeads(Waits(JOINS, NOBODY, JOINS), FIRST_TICK, S1)
  {
    var v := Waits(JOINS, NOBODY, JOINS);
    FirstTickFollows();
    FirstTickEnds();
    FormedS1();
    TickIs(v, JoinAt(BEHIND, Coord(0, 8)), S0A, Rests, S0A, JoinAt(B, Coord(0, 7)), S1, None, S1);
  }

  lemma FirstTickFollows()
    ensures Follows(Waits(JOINS, NOBODY, JOINS), FIRST_TICK) && Formed(Waits(JOINS, NOBODY, JOINS))
  {
    FirstJoins();
    ThirdJoins();
    FormedS0A();
    RestLeads(S0A, 1);
    var v := Waits(JOINS, NOBODY, JOINS);
    ThreeFollow(v, JoinAt(BEHIND, Coord(0, 8)), S0A, Rests, S0A, JoinAt(B, Coord(0, 7)), S1, None);
  }

  lemma FirstTickEnds()
    ensures Living(S1.cells) == S1.cells && S1 == S1.(cells := Refilled(S1.cells, None))
    ensures forall p :: 0 <= p < 3 ==> (HasClient(S1.players[p]) <==> HasClient(Waits(JOINS, NOBODY, JOINS).players[p]))
  {
    NoneDead(S1.cells);
  }

  lemma SecondTick()
    ensures TickLeads(S2(), SECOND_TICK, S3())
  {
    SnakeFollows();
    FruitInFront();
    FruitEaten();
    SecondTickEnds();
    ThreeFollow(S2(), Plain(BEHIND), S2A, JoinAt(CORNER, C), S2B, Eat, S2C, Some(X));
    TickIs(S2(), Plain(BEHIND), S2A, JoinAt(CORNER, C), S2B, Eat, S2C, Some(X), S3());
  }

  const SECOND_TICK := Script([Plain(BEHIND), JoinAt(CORNER, C), Eat], [S2A, S2B, S2C], Some(X))

  lemma SecondTickEnds()
    ensures Living(S2C.cells) == S2C.cells && X !in S2C.cells
    ensures S3() == S2C.(cells := Refilled(S2C.cells, Some(X)))
    ensures forall p :: 0 <= p < 3 ==> (HasClient(S2C.players[p]) <==> HasClient(S2().players[p]))
  {
    NoneDead(S2C.cells);
  }

  lemma SnakeFollows()
    ensures Leads(S2(), 0, Plain(BEHIND), S2A)
  {
    FormedS2();
    FormedS2A();
    TailLeaves();
    TailFound();
    FollowsClear();
    PlainLeads(S2(), 0, A, BEHIND, S2A);
  }

  lemma FormedS2B()
    ensures Formed(S2B)
  {
  }

  lemma FormedS2C()
    ensures Formed(S2C)
  {
  }

  lemma FormedS2()
    ensures Formed(S2())
  {
  }

  lemma FormedS2A()
    ensures Formed(S2A)
  {
  }

  lemma FollowsClear()
    requires Formed(S2())
    ensures CanMove(S2(), 0) && Clear(S2(), 0) && Ahead(S2(), 0) == A
  {
    assert Ahead(S2(), 2) == C;
  }

  lemma TailLeaves()
    requires Formed(S2())
    ensures BEHIND in S2().cells && S2().head[0] in S2().cells && Cleared(S2(), 0, A) == S2A.cells
  {
    assert Cleared(S2(), 0, A) == S2A.cells;
  }

  lemma TailFound()
    ensures LowestNeighbor(Grid(FIELD, S2A.cells), 0, LAST) == Some(BEHIND)
  {
  }

  lemma FruitPlace()
    ensures EDGE == Move(FIELD, CORNER, Up)
    ensures S2B.cells == S2A.cells[CORNER := Tile(1, Body, 1)][EDGE := Tile(0, Body, 1)][C := FRUIT]
  {
  }

  lemma FruitInFront()
    ensures Leads(S2A, 1, JoinAt(CORNER, C), S2B)
  {
    FormedS2A();
    FormedS2B();
    FruitPlace();
    JoinLeads(S2A, 1, CORNER, EDGE, C, S2B);
  }

  lemma FruitEaten()
    ensures Leads(S2B, 2, Eat, S2C)
  {
    FormedS2B();
    FormedS2C();
    assert Ahead(S2B, 2) == C;
    assert Moved(S2B, 2, C) == S2C.cells;
  }

  /** What lies on the field apart from snakes 0 and 2 from now on. */
  const REST: map<Coord, Tile> :=
    map[Coord(0, 8) := FRUIT, Coord(0, 7) := FRUIT, CORNER := Piece(1, 1), EDGE := Piece(0, 1)]

  /** Player 1 pauses, and snake 2 turns up. */
  const S4: Scene := Scene(
    REST[A := Piece(2, 0)][BEHIND := Piece(1, 0)][B := Piece(1, 2)][C := Piece(2, 2)][X := FRUIT],
    [DOWNWARD, SLEEPS, Player(Playing, Up)], [A, CORNER, C], [BEHIND, EDGE, A])

  /** Snake 0 has run into snake 2. */
  const S4A: Scene := Scene(
    REST[A := Piece(2, 0).(kind := Dead)][BEHIND := Piece(1, 0).(kind := Dead)]
      [B := Piece(1, 2)][C := Piece(2, 2)][X := FRUIT],
    [CRASHED, SLEEPS, Player(Playing, Up)], [A, CORNER, C], [BEHIND, EDGE, A])

  /** Snake 2 has eaten the fruit at X. */
  const S4B: Scene := Scene(
    REST[A := Piece(2, 0).(kind := Dead)][BEHIND := Piece(1, 0).(kind := Dead)]
      [B := Piece(1, 2)][C := Piece(2, 2)][X := Piece(3, 2)],
    [CRASHED, SLEEPS, Player(Playing, Up)], [A, CORNER, X], [BEHIND, EDGE, A])

  /** Snake 0 is swept away, and a new fruit lies at A, the cached tail of snake 2. */
  function S5(direction: Direction): Scene {
    Scene(REST[B := Piece(1, 2)][C := Piece(2, 2)][X := Piece(3, 2)][A := FRUIT],
      [CRASHED, SLEEPS, Player(Playing, direction)], [A, CORNER, X], [BEHIND, EDGE, A])
  }

  const THIRD_TICK := Script([Crash, Rests, Eat], [S4A, S4A, S4B], Some(A))

  lemma FormedS4()
    ensures Formed(S4)
  {
  }

  lemma FormedS4A()
    ensures Formed(S4A)
  {
  }

  lemma FormedS4B()
    ensures Formed(S4B)
  {
  }

  lemma SnakeCrashes()
    ensures Leads(S4, 0, Crash, S4A)
  {
    FormedS4();
    FormedS4A();
    CrashAhead();
    CrashShort();
    CrashCells();
  }

  lemma CrashAhead()
    requires Formed(S4)
    ensures CanMove(S4, 0) && Ahead(S4, 0) == B && B in S4.cells && S4.cells[B] == Piece(1, 2)
  {
  }

  lemma CrashShort()
    requires Formed(S4)
    ensures Short(S4, 0)
  {
    assert Adjacent(FIELD, A, BEHIND);
  }

  lemma CrashCells()
    requires Formed(S4) && S4.head[0] in S4.cells && S4.tail[0] in S4.cells
    ensures Crashed(S4, 0) == S4A
  {
    assert Crashed(S4, 0).cells == S4A.cells;
  }

  lemma SecondFruitEaten()
    ensures Leads(S4A, 2, Eat, S4B)
  {
    FormedS4A();
    FormedS4B();
    assert Ahead(S4A, 2) == X;
    assert Moved(S4A, 2, X) == S4B.cells;
  }

  lemma ThirdTickEnds()
    ensures A !in Living(S4B.cells) && S5(Up) == S4B.(cells := Refilled(S4B.cells, Some(A)))
    ensures forall p :: 0 <= p < 3 ==> (HasClient(S4B.players[p]) <==> HasClient(S4.players[p]))
  {
    assert Refilled(S4B.cells, Some(A)) == S5(Up).cells;
  }

  lemma ThirdTick()
    ensures TickLeads(S4, THIRD_TICK, S5(Up))
  {
    SnakeCrashes();
    FormedS4A();
    RestLeads(S4A, 1);
    SecondFruitEaten();
    ThirdTickEnds();
    ThreeFollow(S4, Crash, S4A, Rests, S4A, Eat, S4B, Some(A));
    TickIs(S4, Crash, S4A, Rests, S4A, Eat, S4B, Some(A), S5(Up));
  }

  /** The head of snake 2 has come back to the tile of its cached tail. */
  const S6: Scene := Scene(
    REST[B := Piece(1, 2)][C := Piece(2, 2)][X := Piece(3, 2)][A := Piece(4, 2)],
    [CRASHED, SLEEPS, Player(Playing, Left)], [A, CORNER, A], [BEHIND, EDGE, A])

  const MORE := Coord(0, 6)

  function S7(): Scene {
    S6.(cells := S6.cells[MORE := FRUIT])
  }

  const FOURTH_TICK := Script([Rests, Rests, Eat], [S5(Left), S5(Left), S6], Some(MORE))

  lemma FormedS5(d: Direction)
    ensures Formed(S5(d))
  {
  }

  lemma FormedS6()
    ensures Formed(S6)
  {
  }

  lemma ThirdFruitEaten()
    ensures Leads(S5(Left), 2, Eat, S6)
  {
    FormedS5(Left);
    FormedS6();
    assert Ahead(S5(Left), 2) == A;
    assert Moved(S5(Left), 2, A) == S6.cells;
  }

  lemma FourthTickEnds()
    ensures Living(S6.cells) == S6.cells && MORE !in S6.cells
    ensures S7() == S6.(cells := Refilled(S6.cells, Some(MORE)))
    ensures forall p :: 0 <= p < 3 ==> (HasClient(S6.players[p]) <==> HasClient(S5(Left).players[p]))
  {
    NoneDead(S6.cells);
  }

  lemma TwoRest(v: Scene)
    requires Formed(v) && v.players[0] == CRASHED && v.players[1] == SLEEPS
    ensures Leads(v, 0, Rests, v) && Leads(v, 1, Rests, v)
  {
  }

  lemma FourthTick()
    ensures TickLeads(S5(Left), FOURTH_TICK, S7())
  {
    FormedS5(Left);
    TwoRest(S5(Left));
    ThirdFruitEaten();
    FourthTickEnds();
    ThreeFollow(S5(Left), Rests, S5(Left), Rests, S5(Left), Eat, S6, Some(MORE));
    TickIs(S5(Left), Rests, S5(Left), Rests, S5(Left), Eat, S6, Some(MORE), S7());
  }

  /** What lies on the field apart from snake 2 at the end. */
  const REMAINS: map<Coord, Tile> := REST[MORE := FRUIT]

  /** The head has moved on, and the tile cleared is in the middle of the body. */
  const S8: Scene := Scene(
    REMAINS[B := Piece(1, 2)][C := Piece(2, 2)][X := Piece(3, 2)][Coord(5, 4) := Piece(5, 2)],
    [CRASHED, SLEEPS, Player(Playing, Left)], [A, CORNER, Coord(5, 4)], [BEHIND, EDGE, B])

  const S9: Scene := Scene(
    REMAINS[C := Piece(2, 2)][X := Piece(3, 2)][Coord(5, 4) := Piece(5, 2)][Coord(5, 3) := Piece(6, 2)],
    [CRASHED, SLEEPS, Player(Playing, Left)], [A, CORNER, Coord(5, 3)], [BEHIND, EDGE, C])

  /** Only the old part of the body is left behind the gap. */
  const S10: Scene := Scene(
    REMAINS[X := Piece(3, 2)][Coord(5, 4) := Piece(5, 2)][Coord(5, 3) := Piece(6, 2)][Coord(5, 2) := Piece(7, 2)],
    [CRASHED, SLEEPS, Player(Playing, Left)], [A, CORNER, Coord(5, 2)], [BEHIND, EDGE, X])

  lemma FormedS7()
    ensures Formed(S7())
  {
  }

  lemma FormedS8()
    ensures Formed(S8)
  {
  }

  lemma FormedS9()
    ensures Formed(S9)
  {
  }

  lemma FormedS10()
    ensures Formed(S10)
  {
  }

  lemma GapOpensMove()
    requires Formed(S7())
    ensures CanMove(S7(), 2) && Ahead(S7(), 2) == Coord(5, 4) && Clear(S7(), 2)
  {
  }

  lemma GapOpensCells()
    requires Formed(S7()) && S7().head[2] in S7().cells
    ensures Cleared(S7(), 2, Coord(5, 4)) == S8.cells
  {
  }

  lemma GapOpensSearch()
    ensures LowestNeighbor(Grid(FIELD, S8.cells), 2, A) == Some(B)
  {
  }

  lemma GapOpens()
    ensures Leads(S7(), 2, Plain(B), S8)
  {
    FormedS7();
    FormedS8();
    GapOpensMove();
    GapOpensCells();
    GapOpensSearch();
    PlainLeads(S7(), 2, Coord(5, 4), B, S8);
  }

  lemma TailToCMove()
    requires Formed(S8)
    ensures CanMove(S8, 2) && Ahead(S8, 2) == Coord(5, 3) && Clear(S8, 2)
  {
  }

  lemma TailToCCells()
    requires Formed(S8) && S8.head[2] in S8.cells
    ensures Cleared(S8, 2, Coord(5, 3)) == S9.cells
  {
  }

  lemma TailToCSearch()
    ensures LowestNeighbor(Grid(FIELD, S9.cells), 2, B) == Some(C)
  {
  }

  lemma TailToC()
    ensures Leads(S8, 2, Plain(C), S9)
  {
    FormedS8();
    FormedS9();
    TailToCMove();
    TailToCCells();
    TailToCSearch();
    PlainLeads(S8, 2, Coord(5, 3), C, S9);
  }

  lemma TailToXMove()
    requires Formed(S9)
    ensures CanMove(S9, 2) && Ahead(S9, 2) == Coord(5, 2) && Clear(S9, 2)
  {
  }

  lemma TailToXCells()
    requires Formed(S9) && S9.head[2] in S9.cells
    ensures Cleared(S9, 2, Coord(5, 2)) == S10.cells
  {
  }

  lemma TailToXSearch()
    ensures LowestNeighbor(Grid(FIELD, S10.cells), 2, C) == Some(X)
  {
  }

  lemma TailToX()
    ensures Leads(S9, 2, Plain(X), S10)
  {
    FormedS9();
    FormedS10();
    TailToXMove();
    TailToXCells();
    TailToXSearch();
    PlainLeads(S9, 2, Coord(5, 2), X, S10);
  }

  /** What would be left of snake 2 after its next move. */
  const AFTER: map<Coord, Tile> :=
    REMAINS[Coord(5, 4) := Piece(5, 2)][Coord(5, 3) := Piece(6, 2)]
      [Coord(5, 2) := Piece(7, 2)][Coord(5, 1) := Piece(8, 2)]

  lemma LastMove()
    requires Formed(S10)
    ensures CanMove(S10, 2) && Clear(S10, 2) && Ahead(S10, 2) == Coord(5, 1)
  {
  }

  lemma LastCells()
    requires Formed(S10) && S10.head[2] in S10.cells
    ensures Cleared(S10, 2, Coord(5, 1)) == AFTER
  {
  }

  lemma LastSearch()
    ensures LowestNeighbor(Grid(FIELD, AFTER), 2, X) == None
  {
  }

  /** From X no tile of the snake can be reached. */
  lemma NothingBehindX()
    ensures CanMove(S10, 2) && Clear(S10, 2)
    ensures LowestNeighbor(Grid(FIELD, Cleared(S10, 2, Ahead(S10, 2))), 2, X) == None
  {
    FormedS10();
    LastMove();
    LastCells();
    LastSearch();
  }

  predicate NobodyPlays(v: Scene) {
    |v.players| == 3 && forall p :: 0 <= p < 3 ==> v.players[p].status != Playing
  }

  /** A tick in which nobody was playing before adds no hazard to a run. */
  lemma CalmTick(gs: seq<Game>, es: seq<Event>, v: Scene, gs': seq<Game>, es': seq<Event>)
    requires Stands(gs, es, v) && NoHazards(es) && Run(gs', es') && Longer(gs, es, gs', es')
    requires |es'| == |es| + 2 && es'[|es|].Players? && es'[|es| + 1].Rest?
    requires NobodyPlays(v)
    ensures NoHazards(es')
  {
    var n := |es|;
    var s := gs[n].s;
    RunIsGood(gs, es, n);
    assert gs'[n] == gs'[..|gs|][n] == gs[n];
    assert Next(gs'[n], es'[n], gs'[n + 1]);
    NewcomersAreSafe(s, es'[n].t, es'[n].chs);
    forall i | 0 <= i < |es'| && es'[i].Players? ensures HazardFree(es'[i].t) {
      if i < n {
        assert es'[i] == es'[..n][i] == es[i];
      }
    }
  }

  lemma ClientsAreHarmless(es: seq<Event>)
    requires ClientsOnly(es)
    ensures NoHazards(es)
  {
  }

  /** A whole tick in which nobody was playing before. */
  lemma CalmTickTo(gs: seq<Game>, es: seq<Event>, v: Scene, k: Script, w: Scene)
    returns (gs': seq<Game>, es': seq<Event>)
    requires Stands(gs, es, v) && ClientsOnly(es) && TickLeads(v, k, w) && NobodyPlays(v)
    ensures Stands(gs', es', w) && NoHazards(es')
  {
    ClientsAreHarmless(es);
    gs', es' := TickTo(gs, es, v, k, w);
    CalmTick(gs, es, v, gs', es');
  }

  lemma AfterFirstTick() returns (gs: seq<Game>, es: seq<Event>)
    ensures Stands(gs, es, S1) && NoHazards(es)
  {
    FirstTick();
    NobodyPlaysYet();
    var gs0, es0 := Opening();
    gs, es := CalmTickTo(gs0, es0, Waits(JOINS, NOBODY, JOINS), FIRST_TICK, S1);
  }

  lemma NobodyPlaysYet()
    ensures NobodyPlays(Waits(JOINS, NOBODY, JOINS))
  {
  }

  lemma MayTurn(v: Scene, d: Direction, w: Scene)
    requires Formed(v) && Formed(w) && w == v.(players := v.players[2 := v.players[2].(direction := d)])
    ensures ClientLeads(v, 2, Turn(d), w)
  {
  }

  lemma ClientAddsNoHazard(es: seq<Event>, es': seq<Event>, p: nat, op: Operation)
    requires NoHazards(es) && es' == es + [Client(p, op)]
    ensures NoHazards(es')
  {
  }

  function S1A(): Scene {
    S1.(players := [DOWNWARD, NOBODY, Player(Playing, Right)])
  }

  lemma FormedS1A()
    ensures Formed(S1A())
  {
  }

  /** Snakes 0 and 2 are on the field and player 1 is about to join. */
  lemma BeforeHazard() returns (gs: seq<Game>, es: seq<Event>)
    ensures Stands(gs, es, S2()) && NoHazards(es)
  {
    FormedS1();
    FormedS1A();
    FormedS2();
    MayTurn(S1, Right, S1A());
    MayRegister(S1A(), 1, S2());
    var gs0, es0 := AfterFirstTick();
    var gs1, es1 := ClientTo(gs0, es0, S1, 2, Turn(Right), S1A());
    ClientAddsNoHazard(es0, es1, 2, Turn(Right));
    gs, es := ClientTo(gs1, es1, S1A(), 1, Register, S2());
    ClientAddsNoHazard(es1, es, 1, Register);
  }

  /** The scene in which player 2 takes its step. */
  lemma HazardShown(s: State, v: Scene)
    requires Shows(s, v) && v.players[2].status == Playing && !Owned(Grid(FIELD, v.cells), 2, v.tail[2])
    requires Ahead(v, 2) in v.cells && v.cells[Ahead(v, 2)].kind == Fruit
    ensures Hazard(s, 2)
  {
    assert DrawnAt(s.grid, v.cells, v.tail[2]) && DrawnAt(s.grid, v.cells, Ahead(v, 2));
  }

  lemma HazardousScene()
    ensures Formed(S2B) && S2B.players[2].status == Playing && !Owned(Grid(FIELD, S2B.cells), 2, S2B.tail[2])
    ensures Ahead(S2B, 2) in S2B.cells && S2B.cells[Ahead(S2B, 2)].kind == Fruit
  {
    FormedS2B();
    assert Ahead(S2B, 2) == C;
  }

  /** A hazard in the last tick of a run breaks the snakes. */
  lemma HazardBreaks(gs: seq<Game>, es: seq<Event>, gs': seq<Game>, es': seq<Event>)
    requires Run(gs, es) && NoHazards(es) && Run(gs', es') && Longer(gs, es, gs', es')
    requires |es'| == |es| + 2 && es'[|es|].Players? && es'[|es| + 1].Rest? && |es'[|es|].t| == MAX_PLAYERS + 1
    requires es'[|es|].t[2].Fit() && Hazard(es'[|es|].t[2], 2)
    ensures Snakes(gs'[|es|].s) && !Snakes(gs'[|es'|].s) && !NoHazards(es')
  {
    var n := |es|;
    var t, chs := es'[n].t, es'[n].chs;
    RunIsGood(gs, es, n);
    assert gs'[n] == gs'[..|gs|][n] == gs[n];
    assert Next(gs'[n], es'[n], gs'[n + 1]) && Next(gs'[n + 1], es'[n + 1], gs'[n + 1 + 1]);
    assert !HazardFree(t);
    PlayersKeepSnakes(gs'[n].s, t, chs);
    TraceFits(t, chs, MAX_PLAYERS);
    if Snakes(gs'[n + 2].s) {
      FieldIsNeutral(gs'[n + 1].s, es'[n + 1].u, es'[n + 1].picks);
      assert false;
    }
  }

  /** A run of a server whose snakes are well formed before its last tick and not after it: the
      hypothesis of a run without hazards is needed. */
  lemma HazardBreaksSnakes() returns (gs: seq<Game>, es: seq<Event>)
    ensures Run(gs, es) && !NoHazards(es) && !gs[|es|].sweeping && Stands(gs, es, S3())
    ensures |es| >= 2 && NoHazards(es[..|es| - 2]) && Snakes(gs[|es| - 2].s) && !Snakes(gs[|es|].s)
  {
    var gs0, es0 := BeforeHazard();
    SecondTick();
    gs, es := TickTo(gs0, es0, S2(), SECOND_TICK, S3());
    HazardousScene();
    HazardShown(es[|es0|].t[2], S2B);
    HazardBreaks(gs0, es0, gs, es);
    assert es[..|es| - 2] == es0;
  }

  function S3A(): Scene {
    S3().(players := [DOWNWARD, SLEEPS, Player(Playing, Right)])
  }

  lemma FormedS3()
    ensures Formed(S3()) && Formed(S3A())
  {
  }

  lemma MayPause(v: Scene, p: nat, w: Scene)
    requires Formed(v) && Formed(w) && p < 3 && v.players[p] == DOWNWARD && w == v.(players := v.players[p := SLEEPS])
    ensures ClientLeads(v, p, Pause, w)
  {
  }

  lemma FourthScene()
    ensures S4 == S3A().(players := S3A().players[2 := Player(Playing, Up)])
  {
    assert S4.cells == S3A().cells;
  }

  /** The two ticks after the hazard in which the snake eats its way back to its lost tail. */
  lemma AfterHazard() returns (gs: seq<Game>, es: seq<Event>)
    ensures Stands(gs, es, S5(Up))
  {
    FormedS3();
    FormedS4();
    FourthScene();
    MayPause(S3(), 1, S3A());
    MayTurn(S3A(), Up, S4);
    ThirdTick();
    gs, es := HazardBreaksSnakes();
    gs, es := ClientTo(gs, es, S3(), 1, Pause, S3A());
    gs, es := ClientTo(gs, es, S3A(), 2, Turn(Up), S4);
    gs, es := TickTo(gs, es, S4, THIRD_TICK, S5(Up));
  }

  lemma BackAtTail() returns (gs: seq<Game>, es: seq<Event>)
    ensures Stands(gs, es, S7())
  {
    FormedS5(Up);
    FormedS5(Left);
    MayTurn(S5(Up), Left, S5(Left));
    FourthTick();
    gs, es := AfterHazard();
    gs, es := ClientTo(gs, es, S5(Up), 2, Turn(Left), S5(Left));
    gs, es := TickTo(gs, es, S5(Left), FOURTH_TICK, S7());
  }

  /** A tick in which only snake 2 moves. */
  lemma AloneLeads(v: Scene, next: Coord, w: Scene)
    requires Leads(v, 2, Plain(next), w) && v.players[0] == CRASHED && v.players[1] == SLEEPS
    requires forall c :: c in w.cells ==> w.cells[c].kind != Dead
    ensures TickLeads(v, Script([Rests, Rests, Plain(next)], [v, v, w], None), w)
  {
    NoneDead(w.cells);
    ThreeFollow(v, Rests, v, Rests, v, Plain(next), w, None);
    TickIs(v, Rests, v, Rests, v, Plain(next), w, None, w);
  }

  lemma Alone(gs: seq<Game>, es: seq<Event>, v: Scene, next: Coord, w: Scene) returns (gs': seq<Game>, es': seq<Event>)
    requires Stands(gs, es, v) && Leads(v, 2, Plain(next), w) && v.players[0] == CRASHED && v.players[1] == SLEEPS
    requires forall c :: c in w.cells ==> w.cells[c].kind != Dead
    ensures Stands(gs', es', w)
  {
    AloneLeads(v, next, w);
    gs', es' := TickTo(gs, es, v, Script([Rests, Rests, Plain(next)], [v, v, w], None), w);
  }

  lemma NobodyDead()
    ensures forall c :: c in S8.cells ==> S8.cells[c].kind != Dead
    ensures forall c :: c in S9.cells ==> S9.cells[c].kind != Dead
    ensures forall c :: c in S10.cells ==> S10.cells[c].kind != Dead
  {
  }

  lemma FirstMove() returns (gs: seq<Game>, es: seq<Event>)
    ensures Stands(gs, es, S8)
  {
    GapOpens();
    NobodyDead();
    gs, es := BackAtTail();
    gs, es := Alone(gs, es, S7(), B, S8);
  }

  lemma SecondMove() returns (gs: seq<Game>, es: seq<Event>)
    ensures Stands(gs, es, S9)
  {
    TailToC();
    NobodyDead();
    gs, es := FirstMove();
    gs, es := Alone(gs, es, S8, C, S9);
  }

  lemma ThirdMove() returns (gs: seq<Game>, es: seq<Event>)
    ensures Stands(gs, es, S10)
  {
    TailToX();
    NobodyDead();
    gs, es := SecondMove();
    gs, es := Alone(gs, es, S9, X, S10);
  }

  predicate Resting(v: Scene, p: nat) {
    p < |v.players| && (v.players[p].status == PlayerDead || v.players[p].status == Paused)
  }

  /** The first n players do nothing. */
  lemma {:induction false} IdleTrace(s: State, v: Scene, n: nat) returns (t: seq<State>, chs: seq<Choice>)
    requires Shows(s, v) && n <= 3
    requires forall p :: 0 <= p < n ==> Resting(v, p)
    ensures PlayersTrace(t, chs) && |chs| == n && t[0] == s && Shows(t[n], v)
  {
    t, chs := [s], [];
    if n > 0 {
      t, chs := IdleTrace(s, v, n - 1);
      assert Resting(v, n - 1);
      var r := IdleStep(t[n - 1], v, n - 1);
      ExtendTrace(t, chs, NO_CHOICE, r);
      t, chs := t + [r], chs + [NO_CHOICE];
    }
  }

  lemma StuckAt(s: State, v: Scene, p: nat)
    requires Shows(s, v) && CanMove(v, p) && Clear(v, p)
    requires LowestNeighbor(Grid(FIELD, Cleared(v, p, Ahead(v, p))), p, v.tail[p]) == None
    ensures Leaves(s, p, NO_CHOICE)
  {
    ShowsAddressable(s, v);
    ClearIsAllowed(s, v, p);
    StuckStep(s, v, p, Ahead(v, p));
  }

  /** Players 0 and 1 do nothing, and the step of player 2 takes the exit. */
  lemma ExitNow(s: State, v: Scene, p: nat) returns (t: seq<State>, chs: seq<Choice>)
    requires Shows(s, v) && v.players[0].status == PlayerDead && v.players[1].status == Paused
    requires p == 2 && CanMove(v, p) && Clear(v, p)
    requires LowestNeighbor(Grid(FIELD, Cleared(v, p, Ahead(v, p))), p, v.tail[p]) == None
    ensures PlayersTrace(t, chs) && |chs| == p && t[0] == Opened(s) && Leaves(t[p], p, NO_CHOICE)
  {
    OpenedShows(s, v);
    RestsFirst(v, p);
    t, chs := IdleTrace(Opened(s), v, p);
    StuckAt(t[p], v, p);
  }

  lemma RestsFirst(v: Scene, n: nat)
    requires Formed(v) && v.players[0].status == PlayerDead && v.players[1].status == Paused && n == 2
    ensures forall p :: 0 <= p < n ==> Resting(v, p)
  {
  }

  /** The exit "failed to find next snake tail tile" can be reached, after a hazard: a run of a
      server up to a tick in which, when player 2 takes its step, the process ends. */
  lemma ExitIsReachable() returns (gs: seq<Game>, es: seq<Event>, t: seq<State>, chs: seq<Choice>)
    ensures Run(gs, es) && !gs[|es|].sweeping
    ensures PlayersTrace(t, chs) && |chs| == 2 && t[0] == Opened(gs[|es|].s)
    ensures Leaves(t[2], 2, NO_CHOICE) && Stranded(t[2], 2)
  {
    gs, es := ThirdMove();
    NothingBehindX();
    t, chs := ExitNow(gs[|es|].s, S10, 2);
    ExitIff(t[2], 2, NO_CHOICE);
  }
}
