/** The map object of the server and its in-place operations (libsnake/map/map.c). */
module GameMapClass {
  import opened Torus
  import opened Field
  import Flood

  /** rng_uniform_dist (libsnake/rng.c): any value of the range may come out. */
  method UniformDist(min: int, maxExclusive: int) returns (r: int)
    requires min < maxExclusive
    ensures min <= r < maxExclusive
  {
    r :| min <= r < maxExclusive;
  }

  class GameMap {
    const tiles: array2<Tile>
    var dims: Dims

    ghost predicate Valid()
      reads this
    {
      dims.Legal() && tiles.Length0 == MAX_MAP_HEIGHT && tiles.Length1 == MAX_MAP_WIDTH
    }

    /** The field as a value. */
    function View(): (g: Grid)
      requires Valid()
      reads this, tiles
      ensures g.Valid() && g.dims == dims
      ensures forall c :: dims.Has(c) ==> c in g.tiles && g.tiles[c] == tiles[c.row, c.col]
    {
      Grid(dims, Tiles(0, 0))
    }

    /** The tiles at or after (i, j) in row-major order. */
    function Tiles(i: nat, j: nat): (m: map<Coord, Tile>)
      requires Valid() && i <= dims.height && j <= dims.width
      reads this, tiles
      ensures forall c :: c in m <==> dims.Has(c) && (c.row > i || (c.row == i && c.col >= j))
      ensures forall c :: c in m ==> dims.Has(c) && m[c] == tiles[c.row, c.col]
      decreases dims.height - i, dims.width - j
    {
      if i == dims.height then map[]
      else if j == dims.width then Tiles(i + 1, 0)
      else Tiles(i, j + 1)[Coord(i, j) := tiles[i, j]]
    }

    /** map_get_tile_state */
    function TileAt(c: Coord): (t: Tile)
      requires Valid() && dims.Has(c)
      reads this, tiles
      ensures t == View().tiles[c]
    {
      tiles[c.row, c.col]
    }

    /** map_init_from_template: a wall where the template has one, empty elsewhere. */
    constructor FromTemplate(dims: Dims, walls: set<Coord>)
      requires dims.Legal()
      ensures Valid() && fresh(tiles)
      ensures this.dims == dims
      ensures forall c :: dims.Has(c) ==>
        View().tiles[c] == Tile(0, if c in walls then Wall else Empty, 0)
    {
      this.dims := dims;
      tiles := new Tile[MAX_MAP_HEIGHT, MAX_MAP_WIDTH]((i, j) => Tile(0, Empty, 0));
      new;
      for i := 0 to dims.height
        invariant this.dims == dims
        invariant forall r, c :: 0 <= r < i && 0 <= c < dims.width ==>
          tiles[r, c] == Tile(0, if Coord(r, c) in walls then Wall else Empty, 0)
      {
        for j := 0 to dims.width
          invariant this.dims == dims
          invariant forall r, c :: 0 <= r < i && 0 <= c < dims.width ==>
            tiles[r, c] == Tile(0, if Coord(r, c) in walls then Wall else Empty, 0)
          invariant forall c :: 0 <= c < j ==>
            tiles[i, c] == Tile(0, if Coord(i, c) in walls then Wall else Empty, 0)
        {
          tiles[i, j] := Tile(0, if Coord(i, j) in walls then Wall else Empty, 0);
        }
      }
    }

    /** map_set_tile_empty, map_set_tile_fruit, map_set_tile_dead: only the kind is written. */
    method SetKind(c: Coord, kind: TileKind)
      requires Valid() && dims.Has(c)
      modifies tiles
      ensures View() == old(View()).SetKind(c, kind)
    {
      tiles[c.row, c.col] := tiles[c.row, c.col].(kind := kind);
      assert View().tiles == old(View()).SetKind(c, kind).tiles;
    }

    /** map_set_tile_player */
    method SetBody(c: Coord, p: nat, order: nat)
      requires Valid() && dims.Has(c)
      modifies tiles
      ensures View() == old(View()).SetBody(c, p, order)
    {
      tiles[c.row, c.col] := Tile(order, Body, p);
      assert View().tiles == old(View()).SetBody(c, p, order).tiles;
    }

    /** map_mark_player_as_dead: the recursive flood, writing the tiles in place. */
    method MarkPlayerAsDead(p: nat, c: Coord)
      requires Valid() && dims.Has(c)
      modifies tiles
      ensures View() == Flood.Mark(old(View()), p, c)
      decreases OwnedTiles(View(), p), 0
    {
      var tile := TileAt(c);
      if tile.kind != Body || tile.player != p {
        return;
      }
      Flood.DeadTileShrinks(View(), p, c);
      ghost var first := View().SetKind(c, Dead);
      Flood.MarkAroundFour(first, p, c);
      SetKind(c, Dead);
      MarkNext(p, Move(dims, c, Up), first);
      MarkNext(p, Move(dims, c, Down), first);
      MarkNext(p, Move(dims, c, Left), first);
      MarkNext(p, Move(dims, c, Right), first);
    }

    /** One of the four recursive calls, on a field that has lost nothing but tiles of p. */
    method MarkNext(p: nat, c: Coord, ghost first: Grid)
      requires Valid() && dims.Has(c) && OwnedTiles(View(), p) <= OwnedTiles(first, p)
      modifies tiles
      ensures View() == Flood.Mark(old(View()), p, c) && OwnedTiles(View(), p) <= OwnedTiles(first, p)
      decreases OwnedTiles(first, p), 1
    {
      Flood.MarkShrinks(View(), p, c);
      MarkPlayerAsDead(p, c);
    }

    /** Shuffles the four directions by four random exchanges; all four remain. */
    method Shuffle() returns (ds: array<Direction>)
      ensures fresh(ds) && ds.Length == 4
      ensures forall d: Direction :: d in ds[..]
    {
      ds := new Direction[4][Up, Down, Left, Right];
      assert ds[..] == [Up, Down, Left, Right];
      forall d: Direction ensures d in ds[..] {
        assert d == Up || d == Down || d == Left || d == Right;
      }
      var i := 0;
      while i < 4
        invariant forall d: Direction :: d in ds[..]
      {
        var from := UniformDist(0, 4);
        var to := UniformDist(0, 4);
        ghost var was := ds[..];
        ds[from], ds[to] := ds[to], ds[from];
        forall d: Direction ensures d in ds[..] {
          assert d in was;
          var k :| 0 <= k < 4 && was[k] == d;
          assert ds[if k == from then to else if k == to then from else k] == d;
        }
        i := i + 1;
      }
    }

    /** map_find_random_matching_predicate_search: depth-first over unvisited tiles, neighbours
        in random order. A failed search has visited c, found no match among the tiles it
        visited, and has visited all their neighbours. */
    method Search(ghost g: Grid, wanted: (Grid, Coord) -> bool, visited: array<bool>, c: Coord)
      returns (found: bool, out: Coord)
      requires Valid() && g == View() && g.dims.Has(c) && visited.Length == Size(g.dims)
      modifies visited
      ensures found ==> g.dims.Has(out) && wanted(g, out)
      ensures !found ==> c in Marked(g.dims, visited[..])
      ensures old(Marked(g.dims, visited[..])) <= Marked(g.dims, visited[..])
      ensures !found ==> Explored(g, wanted, old(Marked(g.dims, visited[..])), Marked(g.dims, visited[..]))
      decreases g.dims.All() - Marked(g.dims, visited[..]), 0
    {
      IndexFacts(dims, c, c);
      var index := Index(dims, c);
      if visited[index] {
        return false, c;
      }
      if wanted(View(), c) {
        return true, c;
      }
      ghost var before := Marked(g.dims, visited[..]);
      MarkOne(dims, visited[..], c);
      visited[index] := true;
      ghost var first := Marked(g.dims, visited[..]);
      assert first == before + {c};
      var directions := Shuffle();
      assert c in g.dims.All() - before && c !in g.dims.All() - first;
      found, out := SearchNeighbors(g, wanted, visited, c, directions);
      if !found {
        ExploredFrom(g, wanted, before, first, c, Marked(g.dims, visited[..]), directions[..]);
      }
    }

    /** The loop of the search over the shuffled directions. */
    method SearchNeighbors(ghost g: Grid, wanted: (Grid, Coord) -> bool, visited: array<bool>, c: Coord,
                           directions: array<Direction>)
      returns (found: bool, out: Coord)
      requires Valid() && g == View() && g.dims.Has(c) && visited.Length == Size(g.dims) && directions.Length == 4
      modifies visited
      ensures found ==> g.dims.Has(out) && wanted(g, out)
      ensures !found ==> forall k :: 0 <= k < 4 ==> Move(g.dims, c, directions[k]) in Marked(g.dims, visited[..])
      ensures old(Marked(g.dims, visited[..])) <= Marked(g.dims, visited[..])
      ensures !found ==> Explored(g, wanted, old(Marked(g.dims, visited[..])), Marked(g.dims, visited[..]))
      decreases g.dims.All() - Marked(g.dims, visited[..]), 2
    {
      ghost var first, ds := Marked(g.dims, visited[..]), directions[..];
      for i := 0 to 4
        invariant Around(g, wanted, c, ds[..i], first, Marked(g.dims, visited[..]))
      {
        found, out := SearchNext(g, wanted, visited, c, directions[i], ds[..i], first);
        if found {
          return;
        }
        assert ds[..i] + [directions[i]] == ds[..i + 1];
      }
      AllAround(g, wanted, c, ds, first, Marked(g.dims, visited[..]));
      return false, c;
    }

    /** One iteration of that loop, the directions ds being done. */
    method SearchNext(ghost g: Grid, wanted: (Grid, Coord) -> bool, visited: array<bool>, c: Coord, d: Direction,
                      ghost ds: seq<Direction>, ghost first: set<Coord>)
      returns (found: bool, out: Coord)
      requires Valid() && g == View() && g.dims.Has(c) && visited.Length == Size(g.dims)
      requires Around(g, wanted, c, ds, first, Marked(g.dims, visited[..]))
      modifies visited
      ensures found ==> g.dims.Has(out) && wanted(g, out)
      ensures first <= Marked(g.dims, visited[..])
      ensures !found ==> Around(g, wanted, c, ds + [d], first, Marked(g.dims, visited[..]))
      decreases g.dims.All() - first, 1
    {
      ghost var now := Marked(g.dims, visited[..]);
      assert g.dims.All() - now <= g.dims.All() - first;
      found, out := Search(g, wanted, visited, Move(dims, c, d));
      if !found {
        AroundNext(g, wanted, c, d, ds, first, now, Marked(g.dims, visited[..]));
      }
    }


    method NoneVisited() returns (visited: array<bool>)
      ensures fresh(visited) && visited.Length == Size(dims) && Marked(dims, visited[..]) == {}
    {
      visited := new bool[Size(dims)](_ => false);
      NoneMarked(dims, visited[..]);
    }

    /** map_find_random_matching_predicate: finds a matching tile whenever there is one,
        whatever the random draws. */
    method FindRandomMatching(wanted: (Grid, Coord) -> bool) returns (found: bool, out: Coord)
      requires Valid()
      ensures found ==> dims.Has(out) && wanted(View(), out)
      ensures !found ==> forall c :: dims.Has(c) ==> !wanted(View(), c)
    {
      var visited := NoneVisited();
      var row := UniformDist(0, dims.height);
      var column := UniformDist(0, dims.width);
      found, out := SearchAll(View(), wanted, visited, Coord(row, column));
    }

    /** A search from c with nothing visited before. */
    method SearchAll(ghost g: Grid, wanted: (Grid, Coord) -> bool, visited: array<bool>, c: Coord)
      returns (found: bool, out: Coord)
      requires Valid() && g == View() && g.dims.Has(c)
      requires visited.Length == Size(g.dims) && Marked(g.dims, visited[..]) == {}
      modifies visited
      ensures found ==> g.dims.Has(out) && wanted(g, out)
      ensures !found ==> forall c :: g.dims.Has(c) ==> !wanted(g, c)
    {
      found, out := Search(g, wanted, visited, c);
      if !found {
        ExploredAll(g, wanted, Marked(g.dims, visited[..]), c);
      }
    }
  }

  /** The tiles whose flag is set in a row-major buffer of flags. */
  ghost function Marked(m: Dims, visited: seq<bool>): set<Coord>
  {
    set c | c in m.All() && Index(m, c) < |visited| && visited[Index(m, c)]
  }

  lemma NoneMarked(m: Dims, visited: seq<bool>)
    requires forall i :: 0 <= i < |visited| ==> !visited[i]
    ensures Marked(m, visited) == {}
  {
  }

  lemma MarkOne(m: Dims, visited: seq<bool>, c: Coord)
    requires |visited| == Size(m) && m.Has(c)
    ensures Index(m, c) < |visited|
    ensures Marked(m, visited[Index(m, c) := true]) == Marked(m, visited) + {c}
  {
    IndexFacts(m, c, c);
    forall x | x in m.All()
      ensures x in Marked(m, visited[Index(m, c) := true]) <==> x in Marked(m, visited) + {c}
    {
      IndexFacts(m, x, c);
    }
  }

  /** The tile is no match and its neighbours are all among the visited tiles. */
  ghost predicate Barren(g: Grid, wanted: (Grid, Coord) -> bool, x: Coord, visited: set<Coord>) {
    g.dims.Has(x) && !wanted(g, x) && forall d :: Move(g.dims, x, d) in visited
  }

  /** Since `first` the search has visited the neighbours of c in the directions ds and found no
      match. */
  ghost predicate Around(g: Grid, wanted: (Grid, Coord) -> bool, c: Coord, ds: seq<Direction>,
                         first: set<Coord>, now: set<Coord>)
    requires g.dims.Has(c)
  {
    && first <= now && Explored(g, wanted, first, now)
    && forall k :: 0 <= k < |ds| ==> Move(g.dims, c, ds[k]) in now
  }

  lemma AroundNext(g: Grid, wanted: (Grid, Coord) -> bool, c: Coord, d: Direction, ds: seq<Direction>,
                   first: set<Coord>, now: set<Coord>, next: set<Coord>)
    requires g.dims.Has(c) && Around(g, wanted, c, ds, first, now) && now <= next && Explored(g, wanted, now, next)
    requires Move(g.dims, c, d) in next
    ensures Around(g, wanted, c, ds + [d], first, next)
  {
    ExploredJoin(g, wanted, first, now, next);
  }

  lemma AllAround(g: Grid, wanted: (Grid, Coord) -> bool, c: Coord, ds: seq<Direction>,
                  first: set<Coord>, now: set<Coord>)
    requires g.dims.Has(c) && |ds| == 4 && Around(g, wanted, c, ds[..4], first, now)
    ensures Around(g, wanted, c, ds, first, now)
  {
    assert ds[..4] == ds;
  }

  /** The tiles added between two sets of visited tiles hold no match and lead nowhere new. */
  ghost predicate Explored(g: Grid, wanted: (Grid, Coord) -> bool, before: set<Coord>, after: set<Coord>) {
    forall x :: x in after && x !in before ==> Barren(g, wanted, x, after)
  }

  lemma ExploredJoin(g: Grid, wanted: (Grid, Coord) -> bool, a: set<Coord>, b: set<Coord>, c: set<Coord>)
    requires Explored(g, wanted, a, b) && Explored(g, wanted, b, c) && b <= c
    ensures Explored(g, wanted, a, c)
  {
    forall x | x in c && x !in a ensures Barren(g, wanted, x, c) {
      if x in b {
        assert Barren(g, wanted, x, b);
      }
    }
  }

  /** Adding a tile without a match all of whose neighbours have been visited. */
  lemma ExploredFrom(g: Grid, wanted: (Grid, Coord) -> bool, before: set<Coord>, first: set<Coord>,
                     c: Coord, after: set<Coord>, ds: seq<Direction>)
    requires g.dims.Has(c) && !wanted(g, c) && first == before + {c} && Explored(g, wanted, first, after)
    requires forall d: Direction :: d in ds
    requires |ds| == 4 && forall k :: 0 <= k < 4 ==> Move(g.dims, c, ds[k]) in after
    ensures Explored(g, wanted, before, after)
  {
    assert Barren(g, wanted, c, after) by {
      forall d ensures Move(g.dims, c, d) in after {
        assert d in ds;
      }
    }
  }

  lemma ExploredAll(g: Grid, wanted: (Grid, Coord) -> bool, after: set<Coord>, c: Coord)
    requires Explored(g, wanted, {}, after) && c in after && g.dims.Has(c)
    ensures forall x :: g.dims.Has(x) ==> !wanted(g, x)
  {
    forall x, d | x in after && g.dims.Has(x) ensures Move(g.dims, x, d) in after {
      assert Barren(g, wanted, x, after);
    }
    Connected(g.dims, after, c);
    forall x | g.dims.Has(x) ensures !wanted(g, x) {
      assert x in g.dims.All();
      assert Barren(g, wanted, x, after);
    }
  }
}
