/** The value of a playing field and what the map functions compute from it
    (libsnake/map/map.h, libsnake/map/map.c). */
module Field {
  import opened Options
  import opened Torus

  datatype TileKind = Empty | Body | Fruit | Wall | Dead

  /** A tile keeps its order and player when only its kind is overwritten. */
  datatype Tile = Tile(order: nat, kind: TileKind, player: nat)

  datatype Grid = Grid(dims: Dims, tiles: map<Coord, Tile>) {
    ghost predicate Valid() {
      dims.Legal() && forall c :: c in tiles <==> dims.Has(c)
    }

    function SetKind(c: Coord, kind: TileKind): Grid
      requires c in tiles
    {
      this.(tiles := tiles[c := tiles[c].(kind := kind)])
    }

    function SetBody(c: Coord, p: nat, order: nat): Grid {
      this.(tiles := tiles[c := Tile(order, Body, p)])
    }
  }

  predicate IsKind(g: Grid, c: Coord, kind: TileKind) {
    c in g.tiles && g.tiles[c].kind == kind
  }

  /** The tile belongs to the body of player p. */
  predicate Owned(g: Grid, p: nat, c: Coord) {
    c in g.tiles && g.tiles[c].kind == Body && g.tiles[c].player == p
  }

  ghost function OwnedTiles(g: Grid, p: nat): set<Coord> {
    set c | c in g.tiles && Owned(g, p, c)
  }

  const SCAN: seq<Direction> := [Up, Down, Left, Right]

  /** The better of the best candidate so far and the neighbour in direction d. */
  function BetterNeighbor(g: Grid, p: nat, c: Coord, d: Direction, best: Option<Coord>): Option<Coord>
    requires g.dims.Has(c)
    requires best.Some? ==> best.value in g.tiles
  {
    var n := Move(g.dims, c, d);
    if Owned(g, p, n) && (best.None? || g.tiles[best.value].order > g.tiles[n].order) then Some(n) else best
  }

  /** map_find_player_neighbor_with_lowest_order: scans up, down, left, right. */
  function LowestNeighbor(g: Grid, p: nat, c: Coord): (r: Option<Coord>)
    requires g.dims.Has(c)
    ensures r.Some? ==> Owned(g, p, r.value)
  {
    var up := BetterNeighbor(g, p, c, Up, None);
    var down := BetterNeighbor(g, p, c, Down, up);
    var left := BetterNeighbor(g, p, c, Left, down);
    BetterNeighbor(g, p, c, Right, left)
  }

  /** The neighbour found comes first in scanning order among those of lowest order. */
  lemma LowestNeighborIsFirst(g: Grid, p: nat, c: Coord)
    requires g.dims.Has(c) && LowestNeighbor(g, p, c).Some?
    ensures exists i ::
      0 <= i < 4 && IsFirstLowest(g, p, c, i) && LowestNeighbor(g, p, c).value == Move(g.dims, c, SCAN[i])
  {
    var r := LowestNeighbor(g, p, c).value;
    var i := if r == Move(g.dims, c, Up) then 0 else if r == Move(g.dims, c, Down) then 1
      else if r == Move(g.dims, c, Left) then 2 else 3;
    assert IsFirstLowest(g, p, c, i);
  }

  ghost predicate IsFirstLowest(g: Grid, p: nat, c: Coord, i: nat)
    requires g.dims.Has(c) && i < 4
  {
    var x := Move(g.dims, c, SCAN[i]);
    && Owned(g, p, x)
    && forall j :: 0 <= j < 4 && Owned(g, p, Move(g.dims, c, SCAN[j])) ==>
         var y := Move(g.dims, c, SCAN[j]);
         g.tiles[x].order < g.tiles[y].order || (g.tiles[x].order == g.tiles[y].order && (i <= j || x == y))
  }

  /** A neighbour owned by p whose order is below that of every other tile p owns is the one found. */
  lemma LowestNeighborFound(g: Grid, p: nat, c: Coord, best: Coord)
    requires g.dims.Has(c) && Adjacent(g.dims, c, best) && Owned(g, p, best)
    requires forall x :: Owned(g, p, x) && x != c && x != best ==> g.tiles[x].order > g.tiles[best].order
    requires g.dims.Legal()
    ensures LowestNeighbor(g, p, c) == Some(best)
  {
    MoveFacts(g.dims, c, Up, Up);
    MoveFacts(g.dims, c, Down, Down);
    MoveFacts(g.dims, c, Left, Left);
    MoveFacts(g.dims, c, Right, Right);
  }

  /** The scan finds nothing exactly if no neighbour belongs to p. */
  lemma LowestNeighborComplete(g: Grid, p: nat, c: Coord)
    requires g.dims.Has(c)
    ensures LowestNeighbor(g, p, c).None? <==> forall d :: !Owned(g, p, Move(g.dims, c, d))
  {
    if LowestNeighbor(g, p, c).None? {
      forall d ensures !Owned(g, p, Move(g.dims, c, d)) {
        match d { case Up => case Down => case Left => case Right => }
      }
    }
  }

  /** map_find_empty_neighbor: the first empty neighbour in scanning order. */
  function EmptyNeighbor(g: Grid, c: Coord): Option<Direction>
    requires g.dims.Has(c)
  {
    if IsKind(g, Move(g.dims, c, Up), Empty) then Some(Up)
    else if IsKind(g, Move(g.dims, c, Down), Empty) then Some(Down)
    else if IsKind(g, Move(g.dims, c, Left), Empty) then Some(Left)
    else if IsKind(g, Move(g.dims, c, Right), Empty) then Some(Right)
    else None
  }

  lemma EmptyNeighborComplete(g: Grid, c: Coord)
    requires g.dims.Has(c)
    ensures EmptyNeighbor(g, c).None? <==> forall d :: !IsKind(g, Move(g.dims, c, d), Empty)
    ensures EmptyNeighbor(g, c).Some? ==> IsKind(g, Move(g.dims, c, EmptyNeighbor(g, c).value), Empty)
  {
    if EmptyNeighbor(g, c).None? {
      forall d ensures !IsKind(g, Move(g.dims, c, d), Empty) {
        match d { case Up => case Down => case Left => case Right => }
      }
    }
  }

  /** The direction found comes first in scanning order. */
  lemma EmptyNeighborIsFirst(g: Grid, c: Coord)
    requires g.dims.Has(c) && EmptyNeighbor(g, c).Some?
    ensures exists i :: 0 <= i < 4 && IsFirstEmpty(g, c, i) && EmptyNeighbor(g, c).value == SCAN[i]
  {
    var d := EmptyNeighbor(g, c).value;
    var i := if d == Up then 0 else if d == Down then 1 else if d == Left then 2 else 3;
    assert IsFirstEmpty(g, c, i);
  }

  ghost predicate IsFirstEmpty(g: Grid, c: Coord, i: nat)
    requires g.dims.Has(c) && i < 4
  {
    && IsKind(g, Move(g.dims, c, SCAN[i]), Empty)
    && forall j :: 0 <= j < i ==> !IsKind(g, Move(g.dims, c, SCAN[j]), Empty)
  }
}
