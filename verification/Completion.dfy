/** Whatever has happened so far, a tick comes to its end or to the exit (server/server.c,
    server_tick). */
module Completion {
  import opened Torus
  import opened Field
  import opened Options
  import opened Changes
  import opened Engine
  import opened Chains
  import opened Ticks
  import opened Exits

  /** A complete search has some outcome. */
  lemma SomePick(g: Grid, wanted: (Grid, Coord) -> bool) returns (pick: Option<Coord>)
    ensures Picked(g, wanted, pick)
  {
    if c :| g.dims.Has(c) && wanted(g, c) {
      pick := Some(c);
    } else {
      pick := None;
    }
  }

  lemma SomeChoice(s: State, p: nat) returns (ch: Choice)
    requires s.Fit() && p < MAX_PLAYERS
    ensures Allowed(s, p, ch)
  {
    ch := Choice(None, None);
    if Waiting(s.players[p].status) {
      var spawn := SomePick(s.grid, SpawnSpot);
      ch := Choice(spawn, None);
      if s.players[p].status == Joining && spawn.Some? {
        var fruit := SomePick(Spawn(s, p, spawn.value).grid, FreeSpot);
        ch := Choice(spawn, fruit);
      }
    }
  }

  /** A loop over the first players can be continued up to n players or to the exit. */
  lemma {:induction false} CompleteOrExit(t: seq<State>, chs: seq<Choice>, n: nat)
    returns (t': seq<State>, chs': seq<Choice>, ch: Choice)
    requires PlayersTrace(t, chs) && |chs| <= n <= MAX_PLAYERS && Addressable(t[0])
    ensures PlayersTrace(t', chs') && |chs| <= |chs'| <= n && t'[..|t|] == t && chs'[..|chs|] == chs
    ensures |chs'| < n ==> Leaves(t'[|chs'|], |chs'|, ch)
    decreases n - |chs|
  {
    t', chs', ch := t, chs, Choice(None, None);
    var k := |chs|;
    if k < n {
      TraceKeepsAddressable(t, chs, k);
      ch := SomeChoice(t[k], k);
      if ProcessPlayer(t[k], k, ch).Some? {
        var c, r := ch, ProcessPlayer(t[k], k, ch).value;
        ExtendTrace(t, chs, c, r);
        t', chs', ch := CompleteOrExit(t + [r], chs + [c], n);
        assert t'[..|t|] == (t + [r])[..|t|] == t && chs'[..|chs|] == (chs + [c])[..|chs|] == chs;
      }
    }
  }

  /** From well-formed snakes some first part of a tick is possible. */
  lemma SomePlayers(s: State, bs: seq<seq<Coord>>) returns (t: seq<State>, chs: seq<Choice>)
    requires Inv(s, bs, 0)
    ensures TickPlayers(s, t, chs)
  {
    OpenedKeepsInv(s, bs);
    InvAddressable(Opened(s), bs, 0);
    var ch;
    t, chs, ch := CompleteOrExit([Opened(s)], [], MAX_PLAYERS);
    assert t[..1][0] == t[0];
    if |chs| < MAX_PLAYERS {
      TraceNeverExits(t, chs, bs, ch);
      assert false;
    }
  }

  /** And some second part. */
  lemma {:induction false} CompleteFruits(t: seq<State>, picks: seq<Option<Coord>>, n: nat)
    returns (t': seq<State>, picks': seq<Option<Coord>>)
    requires FruitsTrace(t, picks) && |picks| <= n && t[|picks|].grid.Valid()
    ensures FruitsTrace(t', picks') && |picks'| == n && t'[0] == t[0]
    decreases n - |picks|
  {
    t', picks' := t, picks;
    if |picks| < n {
      var last := t[|picks|];
      var pick := SomePick(last.grid, FreeSpot);
      ExtendFruits(t, picks, pick, SpawnFruit(last, pick));
      t', picks' := CompleteFruits(t + [SpawnFruit(last, pick)], picks + [pick], n);
    }
  }

  lemma SomeField(s: State) returns (u: seq<State>, picks: seq<Option<Coord>>)
    requires s.grid.Valid()
    ensures TickField(s, u, picks)
  {
    u, picks := CompleteFruits([Swept(s)], [], s.eaten);
  }
}
