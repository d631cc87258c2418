/** The history of fields a run publishes, each with the log of the tick that led to it
    (server/server.c, server_tick). */
module Histories {
  import opened Torus
  import opened Field
  import opened Options
  import opened Changes
  import opened Engine
  import opened Operations
  import opened Ticks
  import opened Runs
  import TickReplay

  /** The tiles after each tick and the changelog of that tick; entry 0 precedes all ticks. */
  datatype History = History(maps: seq<map<Coord, Tile>>, logs: seq<seq<Change>>) {
    ghost predicate Valid() {
      && |maps| == |logs| > 0
      && forall k :: 0 <= k < |maps| - 1 ==> Replay(logs[k + 1], maps[k]) == maps[k + 1]
    }

    function Add(tiles: map<Coord, Tile>, log: seq<Change>): History {
      History(maps + [tiles], logs + [log])
    }
  }

  /** What the first i events of a run have published. */
  ghost function Published(gs: seq<Game>, es: seq<Event>, i: nat): History
    requires i <= |es| && |gs| == |es| + 1
  {
    if i == 0 then History([gs[0].s.grid.tiles], [[]])
    else
      var h := Published(gs, es, i - 1);
      if es[i - 1].Rest? then h.Add(gs[i].s.grid.tiles, gs[i].s.log) else h
  }

  /** The state g.s is the end of the first part of a tick that began with the tiles `base`. */
  ghost predicate Midway(g: Game, base: map<Coord, Tile>) {
    exists s, t, chs :: FromTick(g, base, s, t, chs)
  }

  ghost predicate FromTick(g: Game, base: map<Coord, Tile>, s: State, t: seq<State>, chs: seq<Choice>) {
    && s.Fit() && NoDead(s.grid) && s.grid.tiles == base && TickPlayers(s, t, chs)
    && g.s.Fit() && g.s == t[MAX_PLAYERS].(players := g.s.players)
  }

  /** How the game relates to the history published so far. */
  ghost predicate UpToDate(g: Game, h: History) {
    && h.Valid()
    && var last := h.maps[|h.maps| - 1];
       if g.sweeping then Midway(g, last)
       else g.s.Fit() && NoDead(g.s.grid) && g.s.grid.tiles == last
  }

  lemma ClientKeepsUpToDate(g: Game, p: nat, op: Operation, g': Game, h: History)
    requires UpToDate(g, h) && Next(g, Client(p, op), g')
    ensures UpToDate(g', h)
  {
    var last := h.maps[|h.maps| - 1];
    if g.sweeping {
      var s, t, chs :| FromTick(g, last, s, t, chs);
      assert FromTick(g', last, s, t, chs);
    }
  }

  lemma PlayersKeepUpToDate(g: Game, t: seq<State>, chs: seq<Choice>, g': Game, h: History)
    requires UpToDate(g, h) && Next(g, Players(t, chs), g')
    ensures UpToDate(g', h)
  {
    TraceFits(t, chs, MAX_PLAYERS);
    assert FromTick(g', h.maps[|h.maps| - 1], g.s, t, chs);
  }

  lemma RestExtendsHistory(g: Game, u: seq<State>, picks: seq<Option<Coord>>, g': Game, h: History)
    requires UpToDate(g, h) && Next(g, Rest(u, picks), g')
    ensures UpToDate(g', h.Add(g'.s.grid.tiles, g'.s.log))
  {
    var last := h.maps[|h.maps| - 1];
    var s, t, chs :| FromTick(g, last, s, t, chs);
    TickReplay.ReplayGivesNextField(s, t, chs, g.s.players, u, picks);
    SweptFits(g.s);
    RefillsFit(u, picks, |picks|);
  }

  lemma SweptFits(s: State)
    requires s.Fit()
    ensures Swept(s).Fit()
  {
    SweepFacts(s, 0, 0);
  }

  /** Every run publishes a history: each log replayed over one field gives the next. */
  lemma {:induction false} RunPublishesHistory(gs: seq<Game>, es: seq<Event>, i: nat)
    requires Run(gs, es) && i <= |es|
    ensures UpToDate(gs[i], Published(gs, es, i))
  {
    if i > 0 {
      var h := Published(gs, es, i - 1);
      RunPublishesHistory(gs, es, i - 1);
      assert Next(gs[i - 1], es[i - 1], gs[i - 1 + 1]);
      match es[i - 1]
      case Client(p, op) => ClientKeepsUpToDate(gs[i - 1], p, op, gs[i], h);
      case Players(t, chs) => PlayersKeepUpToDate(gs[i - 1], t, chs, gs[i], h);
      case Rest(u, picks) => RestExtendsHistory(gs[i - 1], u, picks, gs[i], h);
    }
  }
}
