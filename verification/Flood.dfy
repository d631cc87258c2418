/** The recursive flood that turns a player's tiles into dead tiles
    (libsnake/map/map.c, map_mark_player_as_dead). */
module Flood {
  import opened Torus
  import opened Field

  /** r differs from g only in that some tiles of p are dead. */
  ghost predicate Eroded(g: Grid, r: Grid, p: nat) {
    && r.dims == g.dims && r.tiles.Keys == g.tiles.Keys
    && forall x :: x in g.tiles ==>
         r.tiles[x] == g.tiles[x] || (Owned(g, p, x) && r.tiles[x] == g.tiles[x].(kind := Dead))
  }

  function Mark(g: Grid, p: nat, c: Coord): (r: Grid)
    requires g.Valid() && g.dims.Has(c)
    ensures Eroded(g, r, p)
    decreases OwnedTiles(g, p), 0
  {
    if !Owned(g, p, c) then g else
      var g0 := g.SetKind(c, Dead);
      assert c in OwnedTiles(g, p) && c !in OwnedTiles(g0, p);
      MarkAround(g0, p, c, SCAN)
  }

  /** Floods from the neighbours of c in the given directions, one after the other. */
  function MarkAround(g: Grid, p: nat, c: Coord, ds: seq<Direction>): (r: Grid)
    requires g.Valid() && g.dims.Has(c)
    ensures Eroded(g, r, p)
    decreases OwnedTiles(g, p), 1 + |ds|
  {
    if ds == [] then g else
      var h := Mark(g, p, Move(g.dims, c, ds[0]));
      assert OwnedTiles(h, p) <= OwnedTiles(g, p);
      MarkAround(h, p, c, ds[1..])
  }

  lemma DeadTileShrinks(g: Grid, p: nat, c: Coord)
    requires g.Valid() && Owned(g, p, c)
    ensures OwnedTiles(g.SetKind(c, Dead), p) < OwnedTiles(g, p)
  {
    assert c in OwnedTiles(g, p) && c !in OwnedTiles(g.SetKind(c, Dead), p);
  }

  lemma MarkShrinks(g: Grid, p: nat, c: Coord)
    requires g.Valid() && g.dims.Has(c)
    ensures OwnedTiles(Mark(g, p, c), p) <= OwnedTiles(g, p)
  {
  }

  lemma MarkAroundNext(g: Grid, p: nat, c: Coord, n: nat)
    requires g.Valid() && g.dims.Has(c) && n < 4
    ensures MarkAround(g, p, c, SCAN[n..]) == MarkAround(Mark(g, p, Move(g.dims, c, SCAN[n])), p, c, SCAN[n + 1..])
  {
    assert SCAN[n..][1..] == SCAN[n + 1..];
  }

  /** One neighbour after the other, as the source does it. */
  lemma MarkAroundFour(g: Grid, p: nat, c: Coord)
    requires g.Valid() && g.dims.Has(c)
    ensures var up := Mark(g, p, Move(g.dims, c, Up));
      var down := Mark(up, p, Move(g.dims, c, Down));
      var left := Mark(down, p, Move(g.dims, c, Left));
      MarkAround(g, p, c, SCAN) == Mark(left, p, Move(g.dims, c, Right))
  {
    assert SCAN[0..] == SCAN && SCAN[4..] == [];
    var up := Mark(g, p, Move(g.dims, c, SCAN[0]));
    var down := Mark(up, p, Move(g.dims, c, SCAN[1]));
    var left := Mark(down, p, Move(g.dims, c, SCAN[2]));
    MarkAroundNext(g, p, c, 0);
    MarkAroundNext(up, p, c, 1);
    MarkAroundNext(down, p, c, 2);
    MarkAroundNext(left, p, c, 3);
  }

  /** A walk over tiles of p from a to b. */
  ghost predicate Walk(g: Grid, p: nat, w: seq<Coord>, a: Coord, b: Coord) {
    && |w| > 0 && w[0] == a && w[|w| - 1] == b
    && (forall i :: 0 <= i < |w| ==> g.dims.Has(w[i]) && Owned(g, p, w[i]))
    && (forall i :: 0 <= i < |w| - 1 ==> Adjacent(g.dims, w[i], w[i + 1]))
  }

  ghost predicate Linked(g: Grid, p: nat, a: Coord, b: Coord) {
    exists w :: Walk(g, p, w, a, b)
  }

  ghost predicate Killed(g: Grid, r: Grid, p: nat, x: Coord) {
    Owned(g, p, x) && !Owned(r, p, x)
  }

  /** No killed tile has a neighbour still owned by p. */
  ghost predicate Sealed(g: Grid, r: Grid, p: nat) {
    forall x, d :: Killed(g, r, p, x) && g.dims.Has(x) ==> !Owned(r, p, Move(g.dims, x, d))
  }

  lemma SealedTransitive(g: Grid, h: Grid, r: Grid, p: nat)
    requires Eroded(g, h, p) && Eroded(h, r, p) && Sealed(g, h, p) && Sealed(h, r, p)
    ensures Sealed(g, r, p)
  {
    forall x, d | Killed(g, r, p, x) && g.dims.Has(x)
      ensures !Owned(r, p, Move(g.dims, x, d))
    {
      if Owned(h, p, x) {
        assert Killed(h, r, p, x);
      } else {
        assert Killed(g, h, p, x);
      }
    }
  }

  lemma {:induction false} MarkSeals(g: Grid, p: nat, c: Coord)
    requires g.Valid() && g.dims.Has(c)
    ensures !Owned(Mark(g, p, c), p, c)
    ensures Sealed(g, Mark(g, p, c), p)
    decreases OwnedTiles(g, p), 0
  {
    if Owned(g, p, c) {
      var g0 := g.SetKind(c, Dead);
      assert c in OwnedTiles(g, p) && c !in OwnedTiles(g0, p);
      MarkAroundSeals(g0, p, c, SCAN);
      var r := MarkAround(g0, p, c, SCAN);
      forall x, d | Killed(g, r, p, x) && g.dims.Has(x)
        ensures !Owned(r, p, Move(g.dims, x, d))
      {
        if x == c {
          assert d == SCAN[0] || d == SCAN[1] || d == SCAN[2] || d == SCAN[3];
        } else {
          assert Killed(g0, r, p, x);
        }
      }
    }
  }

  lemma {:induction false} MarkAroundSeals(g: Grid, p: nat, c: Coord, ds: seq<Direction>)
    requires g.Valid() && g.dims.Has(c)
    ensures forall d :: d in ds ==> !Owned(MarkAround(g, p, c, ds), p, Move(g.dims, c, d))
    ensures Sealed(g, MarkAround(g, p, c, ds), p)
    decreases OwnedTiles(g, p), 1 + |ds|
  {
    if ds != [] {
      var h := Mark(g, p, Move(g.dims, c, ds[0]));
      assert OwnedTiles(h, p) <= OwnedTiles(g, p);
      MarkSeals(g, p, Move(g.dims, c, ds[0]));
      MarkAroundSeals(h, p, c, ds[1..]);
      SealedTransitive(g, h, MarkAround(h, p, c, ds[1..]), p);
      forall d | d in ds ensures !Owned(MarkAround(g, p, c, ds), p, Move(g.dims, c, d)) {
        if d != ds[0] {
          assert d in ds[1..];
        }
      }
    }
  }

  /** Every tile the flood kills can be reached from its start over tiles of p. */
  lemma {:induction false} KilledIsLinked(g: Grid, p: nat, c: Coord, x: Coord)
    requires g.Valid() && g.dims.Has(c) && Killed(g, Mark(g, p, c), p, x)
    ensures Linked(g, p, c, x)
    decreases OwnedTiles(g, p), 0
  {
    if x == c {
      assert Walk(g, p, [c], c, c);
    } else {
      var g0 := g.SetKind(c, Dead);
      assert c in OwnedTiles(g, p) && c !in OwnedTiles(g0, p);
      var d := KilledAroundIsLinked(g0, p, c, SCAN, x);
      Extend(g, g0, p, c, d, x);
    }
  }

  lemma {:induction false} KilledAroundIsLinked(g: Grid, p: nat, c: Coord, ds: seq<Direction>, x: Coord)
    returns (d: Direction)
    requires g.Valid() && g.dims.Has(c) && Killed(g, MarkAround(g, p, c, ds), p, x)
    ensures Linked(g, p, Move(g.dims, c, d), x)
    decreases OwnedTiles(g, p), 1 + |ds|
  {
    var h := Mark(g, p, Move(g.dims, c, ds[0]));
    assert OwnedTiles(h, p) <= OwnedTiles(g, p);
    if Owned(h, p, x) {
      d := KilledAroundIsLinked(h, p, c, ds[1..], x);
      var w :| Walk(h, p, w, Move(g.dims, c, d), x);
      assert Walk(g, p, w, Move(g.dims, c, d), x);
    } else {
      d := ds[0];
      KilledIsLinked(g, p, Move(g.dims, c, d), x);
    }
  }

  lemma Extend(g: Grid, h: Grid, p: nat, c: Coord, d: Direction, x: Coord)
    requires h.dims == g.dims && g.dims.Has(c) && Owned(g, p, c)
    requires forall y :: Owned(h, p, y) ==> Owned(g, p, y)
    requires Linked(h, p, Move(g.dims, c, d), x)
    ensures Linked(g, p, c, x)
  {
    var w :| Walk(h, p, w, Move(g.dims, c, d), x);
    var v := [c] + w;
    forall i | 0 <= i < |v| - 1 ensures Adjacent(g.dims, v[i], v[i + 1]) {
      if i > 0 {
        assert Adjacent(g.dims, w[i - 1], w[i - 1 + 1]);
      }
    }
    assert Walk(g, p, v, c, x);
  }

  /** Along a walk of owned tiles, if the first tile is killed so is the last. */
  lemma {:induction false} KillSpreads(g: Grid, r: Grid, p: nat, w: seq<Coord>, a: Coord, b: Coord)
    requires Sealed(g, r, p) && Walk(g, p, w, a, b) && !Owned(r, p, a)
    ensures !Owned(r, p, b)
    decreases |w|
  {
    if |w| > 1 {
      var x := w[|w| - 2];
      assert Walk(g, p, w[..|w| - 1], a, x);
      KillSpreads(g, r, p, w[..|w| - 1], a, x);
      assert Killed(g, r, p, x) && Adjacent(g.dims, x, w[|w| - 2 + 1]);
    }
  }

  /** The flood kills exactly the component of p's tiles that holds its start, and changes
      nothing else on the field. */
  lemma FloodIsExact(g: Grid, p: nat, c: Coord, x: Coord)
    requires g.Valid() && g.dims.Has(c) && x in g.tiles
    ensures Mark(g, p, c).tiles[x] == if Linked(g, p, c, x) then g.tiles[x].(kind := Dead) else g.tiles[x]
  {
    if Linked(g, p, c, x) {
      var w :| Walk(g, p, w, c, x);
      MarkSeals(g, p, c);
      KillSpreads(g, Mark(g, p, c), p, w, c, x);
      assert Owned(g, p, w[|w| - 1]);
    } else if Mark(g, p, c).tiles[x] != g.tiles[x] {
      KilledIsLinked(g, p, c, x);
    }
  }
}
