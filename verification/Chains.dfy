/** Every snake is a chain of adjacent tiles with consecutive orders, at every point of a tick. */
module Chains {
  import opened Torus
  import opened Field
  import opened Options
  import opened Changes
  import opened Engine
  import Flood

  /** Player p's cached tail lies on a tile that another snake has taken. */
  ghost predicate TailTaken(s: State, p: nat)
    requires p < |s.tail|
  {
    !Owned(s.grid, p, s.tail[p])
  }

  /** b is the body of player p from tail to head: distinct tiles, each next to the one before,
      owned by p and carrying consecutive orders; only the tail may have been taken. */
  ghost predicate Chain(s: State, p: nat, b: seq<Coord>)
    requires Cached(s, p)
  {
    && |b| >= 2 && b[0] == s.tail[p] && b[|b| - 1] == s.head[p]
    && (forall i :: 0 <= i < |b| ==> s.grid.dims.Has(b[i]))
    && (forall i, j :: 0 <= i < j < |b| ==> b[i] != b[j])
    && (forall i :: 0 <= i < |b| - 1 ==> Adjacent(s.grid.dims, b[i], b[i + 1]))
    && (forall i :: 0 <= i < |b| && (i == 0 ==> !TailTaken(s, p)) ==> Link(s, p, b, i))
  }

  /** Tile i of the body is p's and its order is the head's less its distance to the head. */
  ghost predicate Link(s: State, p: nat, b: seq<Coord>, i: nat)
    requires Cached(s, p) && i < |b|
  {
    Owned(s.grid, p, b[i]) && s.grid.tiles[b[i]].order + (|b| - 1 - i) == s.grid.tiles[s.head[p]].order
  }

  /** A taken tail belongs to a player processed earlier in the tick, and its own player is
      either still to be processed, and then not paused, or has grown instead of moving. */
  ghost predicate TakenFairly(s: State, p: nat, b: seq<Coord>, k: nat)
    requires Cached(s, p)
  {
    TailTaken(s, p) ==>
      && s.grid.tiles[s.tail[p]].kind == Body
      && s.grid.tiles[s.tail[p]].player < k && s.grid.tiles[s.tail[p]].player != p
      && (if p < k then |b| >= 3 else s.players[p].status != Paused)
  }

  ghost predicate BodyOf(s: State, p: nat, b: seq<Coord>, k: nat)
    requires s.Fit() && p < MAX_PLAYERS
  {
    if Alive(s.players[p].status) then Cached(s, p) && Chain(s, p, b) && TakenFairly(s, p, b, k) else b == []
  }

  /** With players 0 .. k - 1 processed, the bodies are bs and no other tile belongs to a snake. */
  ghost predicate Inv(s: State, bs: seq<seq<Coord>>, k: nat) {
    && s.Fit() && |bs| == MAX_PLAYERS && k <= MAX_PLAYERS
    && (forall p {:trigger BodyOf(s, p, bs[p], k)} :: 0 <= p < MAX_PLAYERS ==> BodyOf(s, p, bs[p], k))
    && (forall c :: c in s.grid.tiles && s.grid.tiles[c].kind == Body ==>
          s.grid.tiles[c].player < MAX_PLAYERS && c in bs[s.grid.tiles[c].player])
  }

  lemma InvAddressable(s: State, bs: seq<seq<Coord>>, k: nat)
    requires Inv(s, bs, k)
    ensures Addressable(s)
  {
    forall p | 0 <= p < MAX_PLAYERS && Alive(s.players[p].status)
      ensures s.grid.dims.Has(s.head[p]) && s.grid.dims.Has(s.tail[p])
    {
      assert BodyOf(s, p, bs[p], k);
    }
    forall c | c in s.grid.tiles && s.grid.tiles[c].kind == Body
      ensures Alive(s.players[s.grid.tiles[c].player].status)
    {
      assert BodyOf(s, s.grid.tiles[c].player, bs[s.grid.tiles[c].player], k);
    }
  }

  lemma AliveHasBody(s: State, p: nat, bs: seq<seq<Coord>>, k: nat)
    requires Inv(s, bs, k) && p < MAX_PLAYERS && Alive(s.players[p].status)
    ensures Cached(s, p) && |bs[p]| >= 2
  {
    assert BodyOf(s, p, bs[p], k);
  }

  lemma NextIsAdjacent(s: State, p: nat)
    requires Cached(s, p)
    ensures s.grid.dims.Has(NextHead(s, p)) && Adjacent(s.grid.dims, s.head[p], NextHead(s, p))
  {
  }

  /** The body of player p after a step that led from s to r. */
  ghost function NextBody(s: State, r: State, p: nat, b: seq<Coord>): seq<Coord>
    requires p < |s.players| == |r.players| == |r.head| == |r.tail|
  {
    if !Alive(r.players[p].status) then []
    else if !Alive(s.players[p].status) then [r.tail[p], r.head[p]]
    else if s.players[p].status != Playing then b
    else if r.eaten > s.eaten || b == [] then b + [r.head[p]]
    else b[1..] + [r.head[p]]
  }

  /** What processing player p may do to the others: nothing, except that the tail of a player
      still to be processed and not paused may be taken. */
  ghost predicate Frame(s: State, r: State, p: nat) {
    && s.Fit() && r.Fit() && r.grid.dims == s.grid.dims
    && (forall q :: 0 <= q < MAX_PLAYERS && q != p ==>
          r.players[q] == s.players[q] && r.head[q] == s.head[q] && r.tail[q] == s.tail[q])
    && (forall c :: c in r.grid.tiles && r.grid.tiles[c].kind == Body && r.grid.tiles[c].player != p ==>
          s.grid.tiles[c] == r.grid.tiles[c])
    && (forall c :: c in s.grid.tiles && s.grid.tiles[c].kind == Body && s.grid.tiles[c].player != p ==>
          r.grid.tiles[c] == s.grid.tiles[c] || Handed(s, r, p, c))
  }

  /** The tile was the tail of a player still to be processed and now belongs to p. */
  ghost predicate Handed(s: State, r: State, p: nat, c: Coord)
    requires s.Fit() && c in s.grid.tiles && c in r.grid.tiles
  {
    var q := s.grid.tiles[c].player;
    && p < q < MAX_PLAYERS && c == s.tail[q] && s.players[q].status != Paused
    && r.grid.tiles[c].kind == Body && r.grid.tiles[c].player == p
  }

  lemma OthersKeepBodies(s: State, r: State, p: nat, q: nat, b: seq<Coord>)
    requires Frame(s, r, p) && p < MAX_PLAYERS && q < MAX_PLAYERS && q != p && BodyOf(s, q, b, p)
    ensures BodyOf(r, q, b, p + 1)
  {
    if Alive(s.players[q].status) {
      forall i | 0 <= i < |b| && (i == 0 ==> !TailTaken(r, q))
        ensures Link(r, q, b, i)
      {
        assert i > 0 || !TailTaken(s, q);
        assert Link(s, q, b, i) && Link(s, q, b, |b| - 1);
      }
    }
  }

  /** A step that frames the others and leaves p with body b leaves the invariant. */
  lemma InvStep(s: State, r: State, p: nat, bs: seq<seq<Coord>>, b: seq<Coord>)
    requires Inv(s, bs, p) && p < MAX_PLAYERS && Frame(s, r, p) && BodyOf(r, p, b, p + 1)
    requires forall c :: Owned(r.grid, p, c) ==> c in b
    ensures Inv(r, bs[p := b], p + 1)
  {
    var bs' := bs[p := b];
    forall q | 0 <= q < MAX_PLAYERS ensures BodyOf(r, q, bs'[q], p + 1) {
      if q != p {
        OthersKeepBodies(s, r, p, q, bs[q]);
      }
    }
  }

  /** The order of a tile in a body grows from tail to head. */
  lemma OwnTileInBody(s: State, bs: seq<seq<Coord>>, k: nat, p: nat, c: Coord) returns (i: nat)
    requires Inv(s, bs, k) && p < MAX_PLAYERS && Owned(s.grid, p, c)
    ensures Alive(s.players[p].status) && Cached(s, p) && i < |bs[p]| && bs[p][i] == c && Link(s, p, bs[p], i)
  {
    assert BodyOf(s, p, bs[p], k);
    i :| 0 <= i < |bs[p]| && bs[p][i] == c;
  }

  /** The three ways in which a PLAYING snake may step onto tile n without growing. */
  ghost predicate MayAdvance(s: State, p: nat, n: Coord)
    requires Addressable(s) && p < MAX_PLAYERS && n in s.grid.tiles
  {
    var tile := s.grid.tiles[n];
    || tile.kind == Empty
    || (tile.kind == Body && tile.player == p && n == s.tail[p])
    || (tile.kind == Body && tile.player != p && MayFollow(s, p, tile.player, n))
  }

  /** The tile onto which a snake may step is not one of its own, its tail excepted. */
  lemma NextNotInBody(s: State, p: nat, bs: seq<seq<Coord>>, n: Coord, i: nat)
    requires Inv(s, bs, p) && p < MAX_PLAYERS && s.players[p].status == Playing && 0 < i < |bs[p]|
    requires Addressable(s) && n in s.grid.tiles && (MayAdvance(s, p, n) || s.grid.tiles[n].kind == Fruit)
    ensures bs[p][i] != n
  {
    assert BodyOf(s, p, bs[p], p);
    assert Link(s, p, bs[p], i);
  }

  /** What move_player_head and the first half of move_player_tail make of each tile. */
  ghost function AdvancedTile(s: State, p: nat, n: Coord, x: Coord): Tile
    requires Cached(s, p) && s.grid.dims.Has(x)
  {
    if x == n then Tile(s.grid.tiles[s.head[p]].order + 1, Body, p)
    else if x == s.tail[p] && !TailTaken(s, p) then s.grid.tiles[x].(kind := Empty)
    else s.grid.tiles[x]
  }

  lemma AdvancedGrid(s: State, p: nat, n: Coord)
    requires Cached(s, p) && s.grid.dims.Has(n)
    ensures var c := ClearTail(MoveHead(s, p, n), p);
      c.grid.dims == s.grid.dims && forall x :: x in s.grid.tiles ==> c.grid.tiles[x] == AdvancedTile(s, p, n, x)
  {
  }

  /** In the field so advanced, p owns exactly the tiles of its new body, in ascending order. */
  lemma AdvancedOrders(s: State, p: nat, bs: seq<seq<Coord>>, n: Coord, g: Grid)
    requires Inv(s, bs, p) && p < MAX_PLAYERS && s.players[p].status == Playing
    requires Addressable(s) && n in s.grid.tiles && MayAdvance(s, p, n) && |bs[p]| >= 2
    requires g.Valid() && g.dims == s.grid.dims
    requires forall x :: x in s.grid.tiles ==> g.tiles[x] == AdvancedTile(s, p, n, x)
    ensures var b := bs[p][1..] + [n];
      && (forall i :: 0 <= i < |b| ==>
            s.grid.dims.Has(b[i]) && Owned(g, p, b[i]) && g.tiles[b[i]].order + (|b| - 1 - i) == g.tiles[n].order)
      && (forall x :: Owned(g, p, x) ==> x in b)
  {
    var b := bs[p];
    assert BodyOf(s, p, b, p);
    var b' := b[1..] + [n];
    forall i | 0 <= i < |b'|
      ensures s.grid.dims.Has(b'[i]) && Owned(g, p, b'[i]) && g.tiles[b'[i]].order + (|b'| - 1 - i) == g.tiles[n].order
    {
      if i < |b| - 1 {
        NextNotInBody(s, p, bs, n, i + 1);
        assert Link(s, p, b, i + 1) && b[i + 1] != b[0];
      }
    }
    forall x | Owned(g, p, x) ensures x in b' {
      if x != n {
        var i := OwnTileInBody(s, bs, p, p, x);
        assert i > 0 && b'[i - 1] == x;
      } else {
        assert b'[|b'| - 1] == x;
      }
    }
  }

  lemma SecondTileIsLowest(s: State, p: nat, bs: seq<seq<Coord>>, n: Coord, g: Grid)
    requires Inv(s, bs, p) && p < MAX_PLAYERS && s.players[p].status == Playing
    requires Addressable(s) && n in s.grid.tiles && MayAdvance(s, p, n) && |bs[p]| >= 2
    requires g.Valid() && g.dims == s.grid.dims
    requires forall x :: x in s.grid.tiles ==> g.tiles[x] == AdvancedTile(s, p, n, x)
    ensures s.tail[p] == bs[p][0] && LowestNeighbor(g, p, s.tail[p]) == Some(bs[p][1])
  {
    var b := bs[p];
    assert BodyOf(s, p, b, p);
    AdvancedOrders(s, p, bs, n, g);
    var b' := b[1..] + [n];
    assert b'[0] == b[1] && Adjacent(s.grid.dims, b[0], b[0 + 1]);
    LowestNeighborFound(g, p, b[0], b[1]);
  }

  /** move_player_tail finds the second tile of the old body, so the branch "failed to find
      next snake tail tile" is not taken. */
  lemma AdvanceFindsTail(s: State, p: nat, bs: seq<seq<Coord>>, n: Coord)
    requires Inv(s, bs, p) && p < MAX_PLAYERS && s.players[p].status == Playing
    requires Addressable(s) && n in s.grid.tiles && MayAdvance(s, p, n)
    ensures |bs[p]| >= 2 && Advance(s, p, n).Some?
    ensures var r := Advance(s, p, n).value;
      && r.Fit() && r.grid.dims == s.grid.dims && r.players == s.players
      && r.head == s.head[p := n] && r.tail == s.tail[p := bs[p][1]] && r.eaten == s.eaten
      && forall x :: x in s.grid.tiles ==> r.grid.tiles[x] == AdvancedTile(s, p, n, x)
  {
    AliveHasBody(s, p, bs, p);
    AdvancedGrid(s, p, n);
    SecondTileIsLowest(s, p, bs, n, ClearTail(MoveHead(s, p, n), p).grid);
  }

  /** move_player_head followed by move_player_tail moves the body one tile on. */
  lemma AdvanceKeepsChain(s: State, p: nat, bs: seq<seq<Coord>>, n: Coord)
    requires Inv(s, bs, p) && p < MAX_PLAYERS && s.players[p].status == Playing
    requires Addressable(s) && n in s.grid.tiles && Adjacent(s.grid.dims, s.head[p], n) && MayAdvance(s, p, n)
    requires |bs[p]| >= 2
    ensures Advance(s, p, n).Some?
    ensures var r := Advance(s, p, n).value; var b := bs[p][1..] + [n];
      && Frame(s, r, p) && Inv(r, bs[p := b], p + 1)
      && r.players == s.players && r.eaten == s.eaten && r.head[p] == n && !TailTaken(r, p)
  {
    AdvanceFindsTail(s, p, bs, n);
    var r := Advance(s, p, n).value;
    AdvancedBody(s, r, p, bs, n);
    AdvancedFrame(s, r, p, bs, n);
    AdvancedOrders(s, p, bs, n, r.grid);
    InvStep(s, r, p, bs, bs[p][1..] + [n]);
  }

  lemma ShiftedAt(b: seq<Coord>, n: Coord, i: nat)
    requires i < |b|
    ensures |b[1..] + [n]| == |b| && (b[1..] + [n])[i] == if i + 1 < |b| then b[i + 1] else n
  {
  }

  lemma ShiftedDistinct(s: State, p: nat, bs: seq<seq<Coord>>, n: Coord, i: nat, j: nat)
    requires Inv(s, bs, p) && p < MAX_PLAYERS && s.players[p].status == Playing
    requires Addressable(s) && n in s.grid.tiles && MayAdvance(s, p, n) && i < j < |bs[p]|
    ensures (bs[p][1..] + [n])[i] != (bs[p][1..] + [n])[j]
  {
    assert BodyOf(s, p, bs[p], p);
    ShiftedAt(bs[p], n, i);
    ShiftedAt(bs[p], n, j);
    NextNotInBody(s, p, bs, n, i + 1);
  }

  lemma ShiftedAdjacent(s: State, p: nat, bs: seq<seq<Coord>>, n: Coord, i: nat)
    requires Inv(s, bs, p) && p < MAX_PLAYERS && Alive(s.players[p].status) && Cached(s, p)
    requires n in s.grid.tiles && Adjacent(s.grid.dims, s.head[p], n) && i + 1 < |bs[p]|
    ensures var b := bs[p][1..] + [n]; s.grid.dims.Has(b[i]) && Adjacent(s.grid.dims, b[i], b[i + 1])
  {
    var b := bs[p];
    assert BodyOf(s, p, b, p);
    ShiftedAt(b, n, i);
    ShiftedAt(b, n, i + 1);
    if i + 2 < |b| {
      assert Adjacent(s.grid.dims, b[i + 1], b[i + 1 + 1]);
    }
  }

  lemma AdvancedBody(s: State, r: State, p: nat, bs: seq<seq<Coord>>, n: Coord)
    requires Inv(s, bs, p) && p < MAX_PLAYERS && s.players[p].status == Playing
    requires Addressable(s) && n in s.grid.tiles && Adjacent(s.grid.dims, s.head[p], n) && MayAdvance(s, p, n)
    requires r.Fit() && r.grid.dims == s.grid.dims && r.players == s.players
    requires forall x :: x in s.grid.tiles ==> r.grid.tiles[x] == AdvancedTile(s, p, n, x)
    requires r.head[p] == n && |bs[p]| >= 2 && r.tail[p] == bs[p][1]
    ensures BodyOf(r, p, bs[p][1..] + [n], p + 1) && !TailTaken(r, p)
  {
    var b := bs[p];
    AliveHasBody(s, p, bs, p);
    var b' := b[1..] + [n];
    AdvancedOrders(s, p, bs, n, r.grid);
    assert b'[0] == b[1];
    forall i, j | 0 <= i < j < |b'| ensures b'[i] != b'[j] {
      ShiftedDistinct(s, p, bs, n, i, j);
    }
    forall i | 0 <= i < |b'| - 1 ensures Adjacent(r.grid.dims, b'[i], b'[i + 1]) {
      ShiftedAdjacent(s, p, bs, n, i);
    }
    forall i | 0 <= i < |b'| ensures Link(r, p, b', i) {
    }
  }

  lemma AdvancedFrame(s: State, r: State, p: nat, bs: seq<seq<Coord>>, n: Coord)
    requires Inv(s, bs, p) && p < MAX_PLAYERS && s.players[p].status == Playing
    requires Addressable(s) && n in s.grid.tiles && MayAdvance(s, p, n)
    requires r.Fit() && r.grid.dims == s.grid.dims && r.players == s.players
    requires forall q :: 0 <= q < MAX_PLAYERS && q != p ==> r.head[q] == s.head[q] && r.tail[q] == s.tail[q]
    requires forall x :: x in s.grid.tiles ==> r.grid.tiles[x] == AdvancedTile(s, p, n, x)
    ensures Frame(s, r, p)
  {
    forall c | c in s.grid.tiles && s.grid.tiles[c].kind == Body && s.grid.tiles[c].player != p
      ensures r.grid.tiles[c] == s.grid.tiles[c] || Handed(s, r, p, c)
    {
    }
  }

  /** Eating moves the head only; the body grows by one tile. */
  lemma EatenDistinct(s: State, p: nat, bs: seq<seq<Coord>>, n: Coord)
    requires Inv(s, bs, p) && p < MAX_PLAYERS && s.players[p].status == Playing
    requires Addressable(s) && n in s.grid.tiles && s.grid.tiles[n].kind == Fruit
    ensures var b := bs[p] + [n]; forall i, j :: 0 <= i < j < |b| ==> b[i] != b[j]
  {
    var b := bs[p] + [n];
    assert BodyOf(s, p, bs[p], p);
    forall i, j | 0 <= i < j < |b| ensures b[i] != b[j] {
      if j == |bs[p]| && i > 0 {
        NextNotInBody(s, p, bs, n, i);
      }
    }
  }

  lemma EatenAdjacent(s: State, p: nat, bs: seq<seq<Coord>>, n: Coord)
    requires Inv(s, bs, p) && p < MAX_PLAYERS && Alive(s.players[p].status) && Cached(s, p)
    requires n in s.grid.tiles && Adjacent(s.grid.dims, s.head[p], n)
    ensures var b := bs[p] + [n];
      forall i :: 0 <= i < |b| - 1 ==> s.grid.dims.Has(b[i]) && Adjacent(s.grid.dims, b[i], b[i + 1])
  {
    var b := bs[p] + [n];
    assert BodyOf(s, p, bs[p], p);
    forall i | 0 <= i < |b| - 1 ensures s.grid.dims.Has(b[i]) && Adjacent(s.grid.dims, b[i], b[i + 1]) {
      if i + 1 < |bs[p]| {
        assert Adjacent(s.grid.dims, bs[p][i], bs[p][i + 1]);
      }
    }
  }

  lemma EatKeepsBody(s: State, p: nat, bs: seq<seq<Coord>>, n: Coord)
    requires Inv(s, bs, p) && p < MAX_PLAYERS && s.players[p].status == Playing
    requires Addressable(s) && n in s.grid.tiles && Adjacent(s.grid.dims, s.head[p], n) && s.grid.tiles[n].kind == Fruit
    ensures var r := MoveHead(s, p, n);
      BodyOf(r, p, bs[p] + [n], p + 1) && (TailTaken(r, p) <==> TailTaken(s, p))
  {
    var b := bs[p];
    var b' := b + [n];
    var r := MoveHead(s, p, n);
    assert BodyOf(s, p, b, p);
    EatenDistinct(s, p, bs, n);
    EatenAdjacent(s, p, bs, n);
    forall i | 0 <= i < |b'| && (i == 0 ==> !TailTaken(r, p)) ensures Link(r, p, b', i) {
      if i < |b| {
        assert Link(s, p, b, i);
      }
    }
  }

  lemma EatKeepsChain(s: State, p: nat, bs: seq<seq<Coord>>, n: Coord)
    requires Inv(s, bs, p) && p < MAX_PLAYERS && s.players[p].status == Playing
    requires Addressable(s) && n in s.grid.tiles && Adjacent(s.grid.dims, s.head[p], n) && s.grid.tiles[n].kind == Fruit
    ensures var r := MoveHead(s, p, n); var b := bs[p] + [n];
      Frame(s, r, p) && Inv(r, bs[p := b], p + 1) && (TailTaken(r, p) <==> TailTaken(s, p))
  {
    var b := bs[p] + [n];
    var r := MoveHead(s, p, n);
    EatKeepsBody(s, p, bs, n);
    forall c | Owned(r.grid, p, c) ensures c in b {
      if c == n {
        assert b[|bs[p]|] == n;
      } else {
        var i := OwnTileInBody(s, bs, p, p, c);
        assert b[i] == c;
      }
    }
    InvStep(s, r, p, bs, b);
  }

  /** The flood started at the head spreads down the body. */
  lemma {:induction false} FloodReaches(s: State, p: nat, bs: seq<seq<Coord>>, i: nat)
    requires Inv(s, bs, p) && p < MAX_PLAYERS && Alive(s.players[p].status)
    requires i < |bs[p]| && (i == 0 ==> !TailTaken(s, p))
    ensures Cached(s, p) && !Owned(Flood.Mark(s.grid, p, s.head[p]), p, bs[p][i])
    decreases |bs[p]| - i
  {
    var b := bs[p];
    assert BodyOf(s, p, b, p);
    Flood.MarkSeals(s.grid, p, s.head[p]);
    if i < |b| - 1 {
      FloodReaches(s, p, bs, i + 1);
      assert Link(s, p, b, i + 1);
      assert Flood.Killed(s.grid, Flood.Mark(s.grid, p, s.head[p]), p, b[i + 1]);
      assert Adjacent(s.grid.dims, b[i], b[i + 1]);
      AdjacentSymmetric(s.grid.dims, b[i], b[i + 1]);
    }
  }

  /** kill_player turns every tile of the player into a dead tile and changes no other tile. */
  lemma KillTakesWholeBody(s: State, p: nat, bs: seq<seq<Coord>>)
    requires Inv(s, bs, p) && p < MAX_PLAYERS && Alive(s.players[p].status)
    ensures Cached(s, p)
    ensures var g := Flood.Mark(s.grid, p, s.head[p]);
      && g.Valid() && g.dims == s.grid.dims
      && forall x :: x in s.grid.tiles ==>
           g.tiles[x] == if Owned(s.grid, p, x) then s.grid.tiles[x].(kind := Dead) else s.grid.tiles[x]
  {
    assert BodyOf(s, p, bs[p], p);
    forall x | Owned(s.grid, p, x) ensures !Owned(Flood.Mark(s.grid, p, s.head[p]), p, x) {
      var i := OwnTileInBody(s, bs, p, p, x);
      FloodReaches(s, p, bs, i);
    }
  }

  lemma KillKeepsInv(s: State, p: nat, bs: seq<seq<Coord>>, status: Status)
    requires Inv(s, bs, p) && p < MAX_PLAYERS && Alive(s.players[p].status) && !Alive(status) && Cached(s, p)
    ensures var r := Kill(s, p).SetStatus(p, status); Frame(s, r, p) && Inv(r, bs[p := []], p + 1)
  {
    KillTakesWholeBody(s, p, bs);
    InvStep(s, Kill(s, p).SetStatus(p, status), p, bs, []);
  }

  /** A spawned snake consists of its head and its tail, facing away from the tail. */
  lemma SpawnKeepsInv(s: State, p: nat, bs: seq<seq<Coord>>, h: Coord)
    requires Inv(s, bs, p) && p < MAX_PLAYERS && !Alive(s.players[p].status)
    requires s.grid.dims.Has(h) && SpawnSpot(s.grid, h)
    ensures var r := Spawn(s, p, h); var b := [r.tail[p], r.head[p]];
      && Frame(s, r, p) && BodyOf(r, p, b, p + 1) && Inv(r, bs[p := b], p + 1)
      && !TailTaken(r, p) && r.players[p].status == Playing
      && Move(s.grid.dims, r.tail[p], r.players[p].direction) == r.head[p]
  {
    var d := EmptyNeighbor(s.grid, h).value;
    var r := Spawn(s, p, h);
    var t := r.tail[p];
    EmptyNeighborComplete(s.grid, h);
    MoveFacts(s.grid.dims, h, d, d);
    SpawnedBody(s, p, h);
    SpawnFrame(s, p, h);
    var b := [t, h];
    forall c | Owned(r.grid, p, c) ensures c in b {
      if c != h && c != t {
        var i := OwnTileInBody(s, bs, p, p, c);
      }
    }
    InvStep(s, r, p, bs, b);
  }

  lemma SpawnedBody(s: State, p: nat, h: Coord)
    requires s.Fit() && p < MAX_PLAYERS && s.grid.dims.Has(h) && SpawnSpot(s.grid, h)
    ensures var r := Spawn(s, p, h);
      BodyOf(r, p, [r.tail[p], r.head[p]], p + 1) && !TailTaken(r, p)
  {
    var d := EmptyNeighbor(s.grid, h).value;
    var r := Spawn(s, p, h);
    var b := [r.tail[p], r.head[p]];
    MoveFacts(s.grid.dims, h, d, d);
    assert Move(s.grid.dims, b[0], Opposite(d)) == b[1];
    assert Link(r, p, b, 0) && Link(r, p, b, 1);
  }

  lemma SpawnFrame(s: State, p: nat, h: Coord)
    requires s.Fit() && p < MAX_PLAYERS && s.grid.dims.Has(h) && SpawnSpot(s.grid, h)
    ensures Frame(s, Spawn(s, p, h), p)
  {
    EmptyNeighborComplete(s.grid, h);
  }

  /** The one event that leaves a snake's cached tail on a foreign tile: it eats a fruit after
      its tail has been taken. */
  predicate Hazard(s: State, p: nat)
    requires s.grid.Valid() && p < |s.players| && p < |s.head| && p < |s.tail|
  {
    && s.players[p].status == Playing && s.grid.dims.Has(s.head[p])
    && !Owned(s.grid, p, s.tail[p]) && IsKind(s.grid, NextHead(s, p), Fruit)
  }

  /** s and r differ only in tiles that are in neither field part of a snake. */
  ghost predicate SameSnakes(s: State, r: State) {
    && s.Fit() && r.grid.Valid() && r.grid.dims == s.grid.dims
    && r.players == s.players && r.head == s.head && r.tail == s.tail
    && forall c :: c in s.grid.tiles ==>
         r.grid.tiles[c] == s.grid.tiles[c] || (s.grid.tiles[c].kind != Body && r.grid.tiles[c].kind != Body)
  }

  /** The invariant concerns the bodies, the slots and the caches only. */
  lemma SameSnakesKeepInv(s: State, r: State, bs: seq<seq<Coord>>, k: nat)
    requires Inv(s, bs, k) && SameSnakes(s, r)
    ensures Inv(r, bs, k)
    ensures forall p :: 0 <= p < MAX_PLAYERS ==> (TailTaken(r, p) <==> TailTaken(s, p))
  {
    forall p | 0 <= p < MAX_PLAYERS ensures BodyOf(r, p, bs[p], k) {
      assert BodyOf(s, p, bs[p], k);
      if Alive(s.players[p].status) {
        forall i | 0 <= i < |bs[p]| && (i == 0 ==> !TailTaken(r, p)) ensures Link(r, p, bs[p], i) {
          assert i == 0 ==> !TailTaken(s, p);
          assert Link(s, p, bs[p], i) && Link(s, p, bs[p], |bs[p]| - 1);
        }
      }
    }
  }

  lemma SameSnakesKeepFrame(s: State, r: State, t: State, p: nat)
    requires Frame(s, r, p) && SameSnakes(r, t)
    ensures Frame(s, t, p)
  {
  }

  /** What one step of player p establishes. */
  ghost predicate Kept(s: State, r: State, p: nat, bs: seq<seq<Coord>>)
    requires s.Fit() && p < MAX_PLAYERS && |bs| == MAX_PLAYERS
  {
    && r.Fit() && Frame(s, r, p) && Inv(r, bs[p := NextBody(s, r, p, bs[p])], p + 1)
    && (Alive(r.players[p].status) ==> (TailTaken(r, p) <==> Hazard(s, p)))
  }

  lemma SameSnakesKept(s: State, r: State, t: State, p: nat, bs: seq<seq<Coord>>, b: seq<Coord>)
    requires s.Fit() && p < MAX_PLAYERS && |bs| == MAX_PLAYERS
    requires Frame(s, r, p) && Inv(r, bs[p := b], p + 1) && SameSnakes(r, t)
    requires b == NextBody(s, t, p, bs[p])
    requires Alive(r.players[p].status) ==> (TailTaken(r, p) <==> Hazard(s, p))
    ensures Kept(s, t, p, bs)
  {
    SameSnakesKeepInv(r, t, bs[p := b], p + 1);
    SameSnakesKeepFrame(s, r, t, p);
  }

  lemma NoHazardOnAdvance(s: State, p: nat, n: Coord)
    requires Addressable(s) && p < MAX_PLAYERS && s.players[p].status == Playing
    requires n == NextHead(s, p) && MayAdvance(s, p, n)
    ensures !Hazard(s, p)
  {
  }

  lemma PlayCases(s: State, p: nat)
    requires Addressable(s) && p < MAX_PLAYERS && s.players[p].status == Playing
    ensures var n := NextHead(s, p);
      Play(s, p) == if MayAdvance(s, p, n) then Advance(s, p, n)
                    else if s.grid.tiles[n].kind == Fruit then Some(Ate(MoveHead(s, p, n)))
                    else Some(Kill(s, p))
  {
  }

  lemma AdvanceKept(s: State, p: nat, bs: seq<seq<Coord>>, r: State)
    requires Inv(s, bs, p) && p < MAX_PLAYERS && Addressable(s) && s.players[p].status == Playing
    requires MayAdvance(s, p, NextHead(s, p)) && Advance(s, p, NextHead(s, p)) == Some(r)
    ensures r.Fit() && r.players == s.players && Kept(s, r, p, bs)
  {
    var n, b := NextHead(s, p), bs[p];
    AliveHasBody(s, p, bs, p);
    NextIsAdjacent(s, p);
    AdvanceKeepsChain(s, p, bs, n);
    NoHazardOnAdvance(s, p, n);
    assert NextBody(s, r, p, b) == b[1..] + [n];
  }

  lemma EatKept(s: State, p: nat, bs: seq<seq<Coord>>, r: State)
    requires Inv(s, bs, p) && p < MAX_PLAYERS && Addressable(s) && s.players[p].status == Playing
    requires s.grid.tiles[NextHead(s, p)].kind == Fruit
    requires r == Ate(MoveHead(s, p, NextHead(s, p)))
    ensures r.players == s.players && Kept(s, r, p, bs)
  {
    var n := NextHead(s, p);
    AliveHasBody(s, p, bs, p);
    NextIsAdjacent(s, p);
    EatKeepsChain(s, p, bs, n);
    SameSnakesKept(s, MoveHead(s, p, n), r, p, bs, bs[p] + [n]);
  }

  lemma KillKept(s: State, p: nat, bs: seq<seq<Coord>>, status: Status, r: State)
    requires Inv(s, bs, p) && p < MAX_PLAYERS && Alive(s.players[p].status) && !Alive(status) && Cached(s, p)
    requires r == Kill(s, p).SetStatus(p, status)
    ensures Kept(s, r, p, bs)
  {
    KillKeepsInv(s, p, bs, status);
  }

  lemma PlayKeepsInv(s: State, p: nat, bs: seq<seq<Coord>>)
    requires Inv(s, bs, p) && p < MAX_PLAYERS && Addressable(s) && s.players[p].status == Playing
    ensures Play(s, p).Some? && Play(s, p).value.Fit() && Kept(s, Play(s, p).value, p, bs)
    ensures var status := Play(s, p).value.players[p].status; status == Playing || status == PlayerDead
  {
    var n := NextHead(s, p);
    PlayCases(s, p);
    AliveHasBody(s, p, bs, p);
    if MayAdvance(s, p, n) {
      AdvanceFindsTail(s, p, bs, n);
      AdvanceKept(s, p, bs, Play(s, p).value);
    } else if s.grid.tiles[n].kind == Fruit {
      EatKept(s, p, bs, Play(s, p).value);
    } else {
      assert Kill(s, p).SetStatus(p, PlayerDead) == Kill(s, p);
      KillKept(s, p, bs, PlayerDead, Kill(s, p));
    }
  }

  lemma JoinLooksSame(s: State, p: nat, ch: Choice)
    requires s.Fit() && p < MAX_PLAYERS && Waiting(s.players[p].status) && Allowed(s, p, ch) && ch.spawn.Some?
    ensures var r, t := Spawn(s, p, ch.spawn.value), Join(s, p, ch);
      SameSnakes(r, t) && t.eaten == s.eaten && r.players[p].status == Playing
  {
  }

  lemma JoinKept(s: State, p: nat, bs: seq<seq<Coord>>, ch: Choice)
    requires Inv(s, bs, p) && p < MAX_PLAYERS && Waiting(s.players[p].status) && Allowed(s, p, ch)
    ensures Kept(s, Join(s, p, ch), p, bs)
  {
    if ch.spawn.None? {
      IdleKept(s, p, bs, Join(s, p, ch));
    } else {
      var r := Spawn(s, p, ch.spawn.value);
      SpawnKeepsInv(s, p, bs, ch.spawn.value);
      JoinLooksSame(s, p, ch);
      SameSnakesKept(s, r, Join(s, p, ch), p, bs, [r.tail[p], r.head[p]]);
    }
  }

  lemma IdleKept(s: State, p: nat, bs: seq<seq<Coord>>, t: State)
    requires Inv(s, bs, p) && p < MAX_PLAYERS && s.players[p].status != Playing
    requires t.Fit() && t == s.(players := t.players, noneAlive := t.noneAlive)
    requires forall q :: 0 <= q < MAX_PLAYERS && q != p ==> t.players[q] == s.players[q]
    requires if s.players[p].status == Paused then t.players == s.players
             else !Alive(s.players[p].status) && !Alive(t.players[p].status)
    ensures Kept(s, t, p, bs)
  {
    assert BodyOf(s, p, bs[p], p);
    if s.players[p].status == Paused {
      forall i | 0 <= i < |bs[p]| && (i == 0 ==> !TailTaken(t, p)) ensures Link(t, p, bs[p], i) {
        assert Link(s, p, bs[p], i);
      }
    }
    forall c | Owned(t.grid, p, c) ensures c in bs[p] {
      var i := OwnTileInBody(s, bs, p, p, c);
    }
    InvStep(s, t, p, bs, bs[p]);
  }

  lemma PlayingKept(s: State, p: nat, bs: seq<seq<Coord>>, t: State)
    requires Inv(s, bs, p) && p < MAX_PLAYERS && Addressable(s) && s.players[p].status == Playing
    requires Play(s, p).Some? && t == Play(s, p).value.(noneAlive := t.noneAlive)
    ensures Kept(s, t, p, bs)
  {
    PlayKeepsInv(s, p, bs);
    var r := Play(s, p).value;
    SameSnakesKept(s, r, t, p, bs, NextBody(s, r, p, bs[p]));
  }

  lemma PlayingStepKept(s: State, p: nat, bs: seq<seq<Coord>>)
    requires Inv(s, bs, p) && p < MAX_PLAYERS && Addressable(s) && s.players[p].status == Playing
    ensures Play(s, p).Some?
    ensures var r := Survived(Play(s, p), p); r.Some? && Kept(s, r.value, p, bs)
  {
    PlayKeepsInv(s, p, bs);
    SurvivorAlike(Play(s, p).value, p);
    PlayingKept(s, p, bs, Survived(Play(s, p), p).value);
  }

  lemma SurvivorAlike(r: State, p: nat)
    requires r.Fit() && p < MAX_PLAYERS
    ensures var t := Survived(Some(r), p); t.Some? && t.value == r.(noneAlive := t.value.noneAlive)
  {
  }

  lemma DisconnectingKept(s: State, p: nat, bs: seq<seq<Coord>>)
    requires Inv(s, bs, p) && p < MAX_PLAYERS && Addressable(s) && s.players[p].status == Disconnecting
    ensures Kept(s, Kill(s, p).SetStatus(p, NotConnected), p, bs)
  {
    AliveHasBody(s, p, bs, p);
    KillKept(s, p, bs, NotConnected, Kill(s, p).SetStatus(p, NotConnected));
  }

  /** One call of server_tick_process_player keeps every snake a chain, never takes the exit
      branch, and leaves the player's tail on a foreign tile exactly in the hazardous case. */
  lemma StepKeepsInv(s: State, p: nat, bs: seq<seq<Coord>>, ch: Choice)
    requires Inv(s, bs, p) && p < MAX_PLAYERS && Addressable(s) && Allowed(s, p, ch)
    ensures ProcessPlayer(s, p, ch).Some?
    ensures Kept(s, ProcessPlayer(s, p, ch).value, p, bs)
  {
    var status := s.players[p].status;
    if status == Playing {
      PlayingStepKept(s, p, bs);
    } else if status == Disconnecting {
      DisconnectingKept(s, p, bs);
    } else if Waiting(status) {
      JoinKept(s, p, bs, ch);
    } else {
      IdleKept(s, p, bs, ProcessPlayer(s, p, ch).value);
    }
  }
}
