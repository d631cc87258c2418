/** The changelog of a tick is a complete record of it (server/server.c,
    libsnake/changelog/syn_changelog.c). */
module TickReplay {
  import opened Torus
  import opened Field
  import opened Options
  import opened Changes
  import opened Engine
  import opened Chains
  import opened Ticks

  /** Replaying s's log over `base` gives s's field, the dead tiles and the tiles of `open`
      excepted. */
  ghost predicate Recorded(s: State, base: map<Coord, Tile>, open: set<Coord>) {
    var m := Replay(s.log, base);
    && m.Keys == s.grid.tiles.Keys
    && forall c :: c in s.grid.tiles && c !in open && s.grid.tiles[c].kind != Dead ==> m[c] == s.grid.tiles[c]
  }

  lemma PushRecords(s: State, base: map<Coord, Tile>, c: Coord)
    requires c in s.grid.tiles && Recorded(s, base, {c})
    ensures Recorded(s.Push(c), base, {})
  {
    ReplayPush(s.log, Change(c, s.grid.tiles[c]), base);
  }

  lemma SetAndPushRecord(s: State, base: map<Coord, Tile>, g: Grid, c: Coord, r: State)
    requires c in s.grid.tiles && c in g.tiles && Recorded(s, base, {})
    requires g == s.grid.(tiles := s.grid.tiles[c := g.tiles[c]])
    requires r.grid == g && r.log == s.log + [Change(c, g.tiles[c])]
    ensures Recorded(r, base, {})
  {
    ReplayPush(s.log, Change(c, g.tiles[c]), base);
  }

  lemma HeadRecorded(s: State, p: nat, n: Coord, base: map<Coord, Tile>)
    requires Cached(s, p) && s.grid.dims.Has(n) && Recorded(s, base, {})
    ensures Recorded(MoveHead(s, p, n), base, {})
  {
    var g := s.grid.SetBody(n, p, s.grid.tiles[s.head[p]].order + 1);
    SetAndPushRecord(s, base, g, n, MoveHead(s, p, n));
  }

  lemma ClearRecorded(s: State, p: nat, base: map<Coord, Tile>)
    requires Cached(s, p) && Recorded(s, base, {})
    ensures Recorded(ClearTail(s, p), base, {})
  {
    var c := ClearTail(s, p);
    if c != s {
      SetAndPushRecord(s, base, s.grid.SetKind(s.tail[p], Empty), s.tail[p], c);
    }
  }

  lemma TailRecorded(s: State, p: nat, base: map<Coord, Tile>)
    requires Cached(s, p) && Recorded(s, base, {})
    ensures MoveTail(s, p).Some? ==> Recorded(MoveTail(s, p).value, base, {})
  {
    ClearRecorded(s, p, base);
    var c := ClearTail(s, p);
    var next := LowestNeighbor(c.grid, p, s.tail[p]);
    if next.Some? {
      PutTailRecorded(c, p, next.value, base);
    }
  }

  lemma PutTailRecorded(s: State, p: nat, next: Coord, base: map<Coord, Tile>)
    requires p < |s.tail| && next in s.grid.tiles && Recorded(s, base, {})
    ensures Recorded(s.PutTail(p, next).Push(next), base, {})
  {
    PushRecords(s.PutTail(p, next), base, next);
  }

  lemma KillRecorded(s: State, p: nat, base: map<Coord, Tile>)
    requires Cached(s, p) && Recorded(s, base, {})
    ensures Recorded(Kill(s, p), base, {})
  {
  }

  lemma FruitRecorded(s: State, pick: Option<Coord>, base: map<Coord, Tile>)
    requires s.grid.Valid() && (pick.Some? ==> s.grid.dims.Has(pick.value)) && Recorded(s, base, {})
    ensures Recorded(SpawnFruit(s, pick), base, {})
  {
    if pick.Some? {
      SetAndPushRecord(s, base, s.grid.SetKind(pick.value, Fruit), pick.value, SpawnFruit(s, pick));
    }
  }

  lemma SpawnRecorded(s: State, p: nat, h: Coord, base: map<Coord, Tile>)
    requires s.Fit() && p < MAX_PLAYERS && s.grid.dims.Has(h) && SpawnSpot(s.grid, h) && Recorded(s, base, {})
    ensures Recorded(Spawn(s, p, h), base, {})
  {
    var r := Spawn(s, p, h);
    var t := r.tail[p];
    var g := s.grid.SetBody(h, p, 1);
    var half := s.(grid := g).Push(h);
    SetAndPushRecord(s, base, g, h, half);
    SetAndPushRecord(half, base, g.SetBody(t, p, 0), t, r);
  }

  lemma PlayRecorded(s: State, p: nat, base: map<Coord, Tile>)
    requires Addressable(s) && p < MAX_PLAYERS && s.players[p].status == Playing && Play(s, p).Some?
    requires Recorded(s, base, {})
    ensures Recorded(Play(s, p).value, base, {})
  {
    var n := NextHead(s, p);
    PlayCases(s, p);
    HeadRecorded(s, p, n, base);
    if MayAdvance(s, p, n) {
      TailRecorded(MoveHead(s, p, n), p, base);
    } else if s.grid.tiles[n].kind != Fruit {
      KillRecorded(s, p, base);
    }
  }

  lemma JoinRecorded(s: State, p: nat, ch: Choice, base: map<Coord, Tile>)
    requires s.Fit() && p < MAX_PLAYERS && Waiting(s.players[p].status) && Allowed(s, p, ch)
    requires Recorded(s, base, {})
    ensures Recorded(Join(s, p, ch), base, {})
  {
    if ch.spawn.Some? {
      SpawnRecorded(s, p, ch.spawn.value, base);
      if s.players[p].status == Joining {
        FruitRecorded(Spawn(s, p, ch.spawn.value), ch.fruit, base);
      }
    }
  }

  lemma StepRecorded(s: State, p: nat, ch: Choice, r: State, base: map<Coord, Tile>)
    requires Step(s, p, ch, r) && Recorded(s, base, {})
    ensures Recorded(r, base, {})
  {
    var status := s.players[p].status;
    if status == Playing {
      PlayRecorded(s, p, base);
    } else if status == Disconnecting {
      KillRecorded(s, p, base);
    } else if Waiting(status) {
      JoinRecorded(s, p, ch, base);
    }
  }

  lemma {:induction false} TraceRecorded(t: seq<State>, chs: seq<Choice>, base: map<Coord, Tile>, i: nat)
    requires PlayersTrace(t, chs) && Recorded(t[0], base, {}) && i < |t|
    ensures Recorded(t[i], base, {})
  {
    if i > 0 {
      TraceRecorded(t, chs, base, i - 1);
      assert Step(t[i - 1], i - 1, chs[i - 1], t[i - 1 + 1]);
      StepRecorded(t[i - 1], i - 1, chs[i - 1], t[i], base);
    }
  }

  lemma SweepTileRecorded(s: State, c: Coord, base: map<Coord, Tile>)
    requires s.grid.Valid() && s.grid.dims.Has(c) && Recorded(s, base, {})
    ensures Recorded(SweepTile(s, c), base, {})
  {
    if IsKind(s.grid, c, Dead) {
      SetAndPushRecord(s, base, s.grid.SetKind(c, Empty), c, SweepTile(s, c));
    }
  }

  lemma TileThenSweep(s: State, i: nat, j: nat)
    requires s.grid.Valid() && i < s.grid.dims.height && j < s.grid.dims.width
    ensures var r := SweepTile(s, Coord(i, j)); r.grid.dims == s.grid.dims && Sweep(s, i, j) == Sweep(r, i, j + 1)
  {
  }

  /** What one tile of the sweep keeps, the sweep keeps. */
  lemma {:induction false} SweepKeeps(P: State -> bool, s: State, i: nat, j: nat, goal: State)
    requires s.grid.Valid() && i <= s.grid.dims.height && j <= s.grid.dims.width && P(s) && Sweep(s, i, j) == goal
    requires forall r: State, c :: r.grid.Valid() && r.grid.dims.Has(c) && P(r) ==> P(SweepTile(r, c))
    ensures P(goal)
    decreases s.grid.dims.height - i, s.grid.dims.width - j
  {
    if i < s.grid.dims.height {
      if j == s.grid.dims.width {
        SweepKeeps(P, s, i + 1, 0, goal);
      } else {
        var r := SweepTile(s, Coord(i, j));
        TileThenSweep(s, i, j);
        SweepKeeps(P, r, i, j + 1, goal);
      }
    }
  }

  lemma SweepRecorded(s: State, base: map<Coord, Tile>)
    requires s.grid.Valid() && Recorded(s, base, {})
    ensures Recorded(Sweep(s, 0, 0), base, {})
  {
    var P: State -> bool := (r: State) => Recorded(r, base, {});
    forall r: State, c | r.grid.Valid() && r.grid.dims.Has(c) && P(r) ensures P(SweepTile(r, c)) {
      SweepTileRecorded(r, c, base);
    }
    SweepKeeps(P, s, 0, 0, Sweep(s, 0, 0));
  }

  lemma {:induction false} RefillsRecorded(t: seq<State>, picks: seq<Option<Coord>>, base: map<Coord, Tile>, i: nat)
    requires FruitsTrace(t, picks) && Recorded(t[0], base, {}) && i < |t|
    ensures Recorded(t[i], base, {})
  {
    if i > 0 {
      RefillsRecorded(t, picks, base, i - 1);
      assert Refill(t[i - 1], picks[i - 1], t[i - 1 + 1]);
      FruitRecorded(t[i - 1], picks[i - 1], base);
    }
  }

  /** Replaying the log of a tick over the field before the tick gives the field after it,
      tile by tile in kind, player and order. */
  lemma ReplayGivesNextField(s: State, t: seq<State>, chs: seq<Choice>, players: seq<Player>,
                             u: seq<State>, picks: seq<Option<Coord>>)
    requires s.Fit() && NoDead(s.grid) && TickPlayers(s, t, chs) && |players| == MAX_PLAYERS
    requires TickField(t[MAX_PLAYERS].(players := players), u, picks)
    ensures Replay(u[|picks|].log, s.grid.tiles) == u[|picks|].grid.tiles
    ensures NoDead(u[|picks|].grid)
  {
    var base := s.grid.tiles;
    var r := t[MAX_PLAYERS].(players := players);
    TraceFits(t, chs, MAX_PLAYERS);
    TraceRecorded(t, chs, base, MAX_PLAYERS);
    DeathsAreFlagged(s, t, chs, MAX_PLAYERS);
    SweptFacts(r);
    assert Recorded(r, base, {});
    if r.died {
      SweepRecorded(r, base);
    }
    RefillsRecorded(u, picks, base, |picks|);
    RefillsNoDead(u, picks, |picks|);
  }

  lemma {:induction false} RefillsNoDead(t: seq<State>, picks: seq<Option<Coord>>, i: nat)
    requires FruitsTrace(t, picks) && NoDead(t[0].grid) && i < |t|
    ensures NoDead(t[i].grid)
  {
    if i > 0 {
      RefillsNoDead(t, picks, i - 1);
      assert Refill(t[i - 1], picks[i - 1], t[i - 1 + 1]);
    }
  }
}
