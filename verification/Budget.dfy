/** The fixed-size changelog never overflows (libsnake/changelog/changelog.c, server/server.c). */
module Budget {
  import opened Arithmetic
  import opened Torus
  import opened Field
  import opened Options
  import opened Changes
  import opened Engine
  import opened Chains
  import opened Ticks
  import opened Exits

  /** The number of living players among the first k. */
  ghost function Living(players: seq<Player>, k: nat): nat
    requires k <= |players|
  {
    if k == 0 then 0 else Living(players, k - 1) + if Alive(players[k - 1].status) then 1 else 0
  }

  lemma {:induction false} LivingBound(players: seq<Player>, k: nat)
    requires k <= |players|
    ensures Living(players, k) <= k
  {
    if k > 0 {
      LivingBound(players, k - 1);
    }
  }

  lemma {:induction false} LivingSame(a: seq<Player>, b: seq<Player>, k: nat)
    requires k <= |a| && k <= |b| && forall q :: 0 <= q < k ==> a[q] == b[q]
    ensures Living(a, k) == Living(b, k)
  {
    if k > 0 {
      LivingSame(a, b, k - 1);
    }
  }

  /** What the tick has logged and what the fruits still to be spawned may add to it. */
  function Owed(s: State): nat {
    |s.log| + s.eaten
  }

  lemma PlayCost(s: State, p: nat)
    requires Addressable(s) && p < MAX_PLAYERS && s.players[p].status == Playing && Play(s, p).Some?
    ensures var r := Play(s, p).value;
      Owed(r) <= Owed(s) + if Alive(r.players[p].status) then 3 else 0
  {
    PlayCases(s, p);
  }

  lemma JoinCost(s: State, p: nat, ch: Choice)
    requires s.Fit() && p < MAX_PLAYERS && Waiting(s.players[p].status) && Allowed(s, p, ch)
    ensures var r := Join(s, p, ch);
      Owed(r) <= Owed(s) + if Alive(r.players[p].status) then 3 else 0
  {
  }

  /** A player adds at most three entries, and none if it does not survive. */
  lemma StepCost(s: State, p: nat, ch: Choice, r: State)
    requires Step(s, p, ch, r)
    ensures Owed(r) <= Owed(s) + if Alive(r.players[p].status) then 3 else 0
  {
    if s.players[p].status == Playing {
      PlayCost(s, p);
    } else if Waiting(s.players[p].status) {
      JoinCost(s, p, ch);
    }
  }

  lemma {:induction false} TraceCost(t: seq<State>, chs: seq<Choice>, i: nat)
    requires PlayersTrace(t, chs) && |chs| <= MAX_PLAYERS && t[0].Fit() && i < |t| && Owed(t[0]) == 0
    ensures t[i].Fit() && Owed(t[i]) <= 3 * Living(t[i].players, i)
  {
    if i > 0 {
      var p := i - 1;
      TraceCost(t, chs, p);
      assert Step(t[p], p, chs[p], t[p + 1]);
      StepIsLocal(t[p], p, chs[p], t[i]);
      StepCost(t[p], p, chs[p], t[i]);
      LivingSame(t[p].players, t[i].players, p);
    }
  }

  ghost function DeadTiles(g: Grid): set<Coord> {
    set c | c in g.tiles && g.tiles[c].kind == Dead
  }

  /** A living snake owns its head and the tile behind it. */
  lemma TwoTiles(s: State, bs: seq<seq<Coord>>, p: nat)
    requires Inv(s, bs, MAX_PLAYERS) && p < MAX_PLAYERS && Alive(s.players[p].status)
    ensures |bs[p]| >= 2
    ensures var b := bs[p];
      Owned(s.grid, p, b[|b| - 1]) && Owned(s.grid, p, b[|b| - 2]) && b[|b| - 1] != b[|b| - 2]
  {
    var b := bs[p];
    assert BodyOf(s, p, b, MAX_PLAYERS);
    assert Link(s, p, b, |b| - 1) && Link(s, p, b, |b| - 2);
  }

  lemma AddTwo<T>(s: set<T>, x: T, y: T)
    requires x != y && x !in s && y !in s
    ensures |s + {x, y}| == |s| + 2
  {
    assert s + {x, y} == s + {x} + {y};
  }

  /** Two tiles of each living player among the first k. */
  lemma {:induction false} PairTiles(s: State, bs: seq<seq<Coord>>, k: nat) returns (pairs: set<Coord>)
    requires Inv(s, bs, MAX_PLAYERS) && k <= MAX_PLAYERS
    ensures |pairs| == 2 * Living(s.players, k)
    ensures forall c :: c in pairs ==>
      c in s.grid.tiles && s.grid.tiles[c].kind == Body && s.grid.tiles[c].player < k
  {
    if k == 0 {
      pairs := {};
    } else {
      var p := k - 1;
      pairs := PairTiles(s, bs, p);
      if Alive(s.players[p].status) {
        TwoTiles(s, bs, p);
        var x, y := bs[p][|bs[p]| - 1], bs[p][|bs[p]| - 2];
        assert x !in pairs && y !in pairs;
        AddTwo(pairs, x, y);
        pairs := pairs + {x, y};
      }
    }
  }

  /** Living snakes, two tiles each, and dead tiles share the field. */
  lemma FieldCapacity(s: State, bs: seq<seq<Coord>>)
    requires Inv(s, bs, MAX_PLAYERS)
    ensures 2 * Living(s.players, MAX_PLAYERS) + |DeadTiles(s.grid)| <= Size(s.grid.dims)
  {
    var pairs := PairTiles(s, bs, MAX_PLAYERS);
    var dead := DeadTiles(s.grid);
    assert pairs !! dead;
    assert pairs + dead <= s.grid.dims.All();
    Subset(pairs + dead, s.grid.dims.All());
    CountAll(s.grid.dims);
    assert |pairs + dead| == |pairs| + |dead|;
  }

  lemma {:induction false} Subset<T>(a: set<T>, b: set<T>)
    requires a <= b
    ensures |a| <= |b|
  {
    if a != {} {
      var x :| x in a;
      Subset(a - {x}, b - {x});
    }
  }

  lemma FieldFitsLog(m: Dims)
    requires m.Legal()
    ensures Size(m) + MAX_PLAYERS <= MAX_CHANGELOG_SIZE
  {
    RowsApart(m.width, m.height, MAX_MAP_HEIGHT + 1);
    assert m.width * (MAX_MAP_HEIGHT + 1) <= MAX_MAP_WIDTH * (MAX_MAP_HEIGHT + 1);
  }

  /** When the player locks are released, the log, the fruits to be spawned and the dead tiles
      to be swept still fit into the changelog together. */
  lemma PlayersLeaveRoom(s: State, t: seq<State>, chs: seq<Choice>, bs: seq<seq<Coord>>)
    requires Inv(s, bs, 0) && TickPlayers(s, t, chs)
    ensures var r := t[MAX_PLAYERS];
      Owed(r) + |DeadTiles(r.grid)| <= Size(r.grid.dims) + MAX_PLAYERS <= MAX_CHANGELOG_SIZE
  {
    OpenedKeepsInv(s, bs);
    TraceKeepsInv(t, chs, bs, MAX_PLAYERS);
    TraceCost(t, chs, MAX_PLAYERS);
    var r := t[MAX_PLAYERS];
    FieldCapacity(r, Bodies(t, bs, MAX_PLAYERS));
    LivingBound(r.players, MAX_PLAYERS);
    FieldFitsLog(r.grid.dims);
  }

  lemma DeadTilesBound(g: Grid)
    requires g.Valid()
    ensures |DeadTiles(g)| <= Size(g.dims)
  {
    assert DeadTiles(g) <= g.dims.All();
    Subset(DeadTiles(g), g.dims.All());
    CountAll(g.dims);
  }

  /** From such a state no tick can overflow the changelog. */
  ghost predicate Ample(s: State) {
    s.Fit() && (Snakes(s) || Size(s.grid.dims) + 2 * MAX_PLAYERS <= MAX_MAP_WIDTH * MAX_MAP_HEIGHT)
  }

  lemma AmpleLeavesRoom(s: State, t: seq<State>, chs: seq<Choice>)
    requires Ample(s) && TickPlayers(s, t, chs)
    ensures t[MAX_PLAYERS].Fit()
    ensures Owed(t[MAX_PLAYERS]) + |DeadTiles(t[MAX_PLAYERS].grid)| <= MAX_CHANGELOG_SIZE
  {
    TraceKeepsDims(t, chs, MAX_PLAYERS);
    if Snakes(s) {
      var bs :| Inv(s, bs, 0);
      PlayersLeaveRoom(s, t, chs, bs);
    } else {
      TraceCost(t, chs, MAX_PLAYERS);
      LivingBound(t[MAX_PLAYERS].players, MAX_PLAYERS);
      DeadTilesBound(t[MAX_PLAYERS].grid);
    }
  }

  /** The dead tiles at or after (i, j). */
  ghost function DeadFrom(g: Grid, i: nat, j: nat): set<Coord> {
    set c | c in g.tiles && g.tiles[c].kind == Dead && Later(c, i, j)
  }

  lemma DeadFromSwept(g: Grid, c: Coord)
    requires g.Valid() && g.dims.Has(c)
    ensures IsKind(g, c, Dead) ==> c !in DeadFrom(g.SetKind(c, Empty), c.row, c.col + 1)
    ensures IsKind(g, c, Dead) ==> DeadFrom(g, c.row, c.col) == DeadFrom(g.SetKind(c, Empty), c.row, c.col + 1) + {c}
    ensures !IsKind(g, c, Dead) ==> DeadFrom(g, c.row, c.col) == DeadFrom(g, c.row, c.col + 1)
  {
  }

  lemma DeadFromNext(s: State, i: nat, j: nat)
    requires s.grid.Valid() && i < s.grid.dims.height && j < s.grid.dims.width
    ensures var r := SweepTile(s, Coord(i, j));
      |r.log| + |DeadFrom(r.grid, i, j + 1)| == |s.log| + |DeadFrom(s.grid, i, j)|
  {
    DeadFromSwept(s.grid, Coord(i, j));
  }

  lemma DeadFromRow(g: Grid, i: nat, width: nat)
    requires g.Valid() && width == g.dims.width
    ensures DeadFrom(g, i, width) == DeadFrom(g, i + 1, 0)
  {
  }

  /** The sweep has reached (i, j), its rest leads to the state `goal`, and the changelog has
      room for the dead tiles still ahead. */
  ghost predicate SweepsTo(s: State, i: nat, j: nat, goal: State) {
    && s.grid.Valid() && i <= s.grid.dims.height && j <= s.grid.dims.width
    && |s.log| + |DeadFrom(s.grid, i, j)| <= MAX_CHANGELOG_SIZE && Sweep(s, i, j) == goal
  }

  lemma SweepsToNext(s: State, i: nat, j: nat, goal: State)
    requires SweepsTo(s, i, j, goal) && i < s.grid.dims.height && j < s.grid.dims.width
    ensures SweepsTo(SweepTile(s, Coord(i, j)), i, j + 1, goal)
    ensures IsKind(s.grid, Coord(i, j), Dead) ==> |s.log| < MAX_CHANGELOG_SIZE
  {
    DeadFromNext(s, i, j);
    DeadFromSwept(s.grid, Coord(i, j));
  }

  lemma SweepsToRow(s: State, i: nat, goal: State)
    requires SweepsTo(s, i, s.grid.dims.width, goal) && i < s.grid.dims.height
    ensures SweepsTo(s, i + 1, 0, goal)
  {
    DeadFromRow(s.grid, i, s.grid.dims.width);
  }

  /** The sweep logs each dead tile once. */
  lemma {:induction false} SweepCost(s: State, i: nat, j: nat)
    requires s.grid.Valid() && i <= s.grid.dims.height && j <= s.grid.dims.width
    ensures |Sweep(s, i, j).log| == |s.log| + |DeadFrom(s.grid, i, j)|
    decreases s.grid.dims.height - i, s.grid.dims.width - j
  {
    if i == s.grid.dims.height {
      assert DeadFrom(s.grid, i, j) == {};
    } else if j == s.grid.dims.width {
      DeadFromRow(s.grid, i, j);
      SweepCost(s, i + 1, 0);
    } else {
      DeadFromNext(s, i, j);
      SweepCost(SweepTile(s, Coord(i, j)), i, j + 1);
    }
  }

  lemma SweptCost(s: State)
    requires s.Fit()
    ensures Owed(Swept(s)) <= Owed(s) + |DeadTiles(s.grid)|
  {
    SweepFacts(s, 0, 0);
    SweepCost(s, 0, 0);
    assert DeadFrom(s.grid, 0, 0) == DeadTiles(s.grid);
  }

  lemma {:induction false} RefillCost(t: seq<State>, picks: seq<Option<Coord>>, i: nat)
    requires FruitsTrace(t, picks) && i < |t|
    ensures |t[i].log| <= |t[0].log| + i
  {
    if i > 0 {
      RefillCost(t, picks, i - 1);
      assert Refill(t[i - 1], picks[i - 1], t[i - 1 + 1]);
    }
  }

  /** From well-formed snakes, no state of a tick has more entries in the changelog than it can
      hold, whatever the random picks and whatever clients do to the slots during the sweep. */
  lemma ChangelogNeverOverflows(s: State, t: seq<State>, chs: seq<Choice>, players: seq<Player>,
                                u: seq<State>, picks: seq<Option<Coord>>)
    requires Snakes(s) && TickPlayers(s, t, chs) && |players| == MAX_PLAYERS
    requires TickField(t[MAX_PLAYERS].(players := players), u, picks)
    ensures forall i :: 0 <= i < |t| ==> |t[i].log| <= MAX_CHANGELOG_SIZE
    ensures forall i :: 0 <= i < |u| ==> |u[i].log| <= Size(s.grid.dims) + MAX_PLAYERS <= MAX_CHANGELOG_SIZE
  {
    var bs :| Inv(s, bs, 0);
    OpenedKeepsInv(s, bs);
    forall i | 0 <= i < |t| ensures |t[i].log| <= MAX_CHANGELOG_SIZE {
      TraceCost(t, chs, i);
      LivingBound(t[i].players, i);
    }
    PlayersLeaveRoom(s, t, chs, bs);
    TraceKeepsInv(t, chs, bs, MAX_PLAYERS);
    DimsStay(t, chs, bs, MAX_PLAYERS);
    var r := t[MAX_PLAYERS].(players := players);
    SweptCost(r);
    SweepFacts(r, 0, 0);
    forall i | 0 <= i < |u| ensures |u[i].log| <= Size(s.grid.dims) + MAX_PLAYERS {
      RefillCost(u, picks, i);
    }
  }
}
