/** Coordinates, directions and the wrap-around geometry of the playing field
    (libsnake/coordinates.h, libsnake/direction.c, libsnake/map/map.c). */
module Torus {
  import opened Arithmetic

  const MIN_MAP_WIDTH := 10
  const MIN_MAP_HEIGHT := 10
  const MAX_MAP_WIDTH := 100
  const MAX_MAP_HEIGHT := 50

  datatype Direction = Up | Left | Down | Right

  datatype Coord = Coord(row: nat, col: nat)

  /** The size of a field. */
  datatype Dims = Dims(width: nat, height: nat) {
    /** The limits of libsnake/constants.h. */
    predicate Legal() {
      MIN_MAP_WIDTH <= width <= MAX_MAP_WIDTH && MIN_MAP_HEIGHT <= height <= MAX_MAP_HEIGHT
    }

    predicate Has(c: Coord) {
      c.row < height && c.col < width
    }

    ghost function All(): set<Coord> {
      set r, c | 0 <= r < height && 0 <= c < width :: Coord(r, c)
    }
  }

  function Opposite(d: Direction): Direction {
    match d
    case Up => Down
    case Left => Right
    case Down => Up
    case Right => Left
  }

  /** One step on the torus. */
  function Move(m: Dims, c: Coord, d: Direction): (r: Coord)
    requires m.Has(c)
    ensures m.Has(r)
  {
    match d
    case Up => c.(row := if c.row == 0 then m.height - 1 else c.row - 1)
    case Down => c.(row := if c.row == m.height - 1 then 0 else c.row + 1)
    case Left => c.(col := if c.col == 0 then m.width - 1 else c.col - 1)
    case Right => c.(col := if c.col == m.width - 1 then 0 else c.col + 1)
  }

  /** What the directions are on the field: up and down change the row, left and right the column,
      by one, and the field wraps around. */
  lemma MoveGeometry(m: Dims, c: Coord)
    requires m.Has(c)
    ensures var r := Move(m, c, Up); (r.row + 1) % m.height == c.row && r.col == c.col
    ensures var r := Move(m, c, Down); r.row == (c.row + 1) % m.height && r.col == c.col
    ensures var r := Move(m, c, Left); (r.col + 1) % m.width == c.col && r.row == c.row
    ensures var r := Move(m, c, Right); r.col == (c.col + 1) % m.width && r.row == c.row
  {
    Wraps(c.row, m.height);
    Wraps(if c.row == 0 then m.height - 1 else c.row - 1, m.height);
    Wraps(c.col, m.width);
    Wraps(if c.col == 0 then m.width - 1 else c.col - 1, m.width);
  }

  lemma Wraps(k: nat, n: nat)
    requires k < n
    ensures (k + 1) % n == if k == n - 1 then 0 else k + 1
  {
    if k == n - 1 {
      RemainderIs(n, n, 1, 0);
    } else {
      RemainderIs(k + 1, n, 0, k + 1);
    }
  }

  predicate Adjacent(m: Dims, a: Coord, b: Coord)
    requires m.Has(a)
  {
    b == Move(m, a, Up) || b == Move(m, a, Down) || b == Move(m, a, Left) || b == Move(m, a, Right)
  }

  /** Moving back the way one came returns to the start, and on a legal field no step is a
      loop and no two directions lead to the same tile. */
  lemma MoveFacts(m: Dims, c: Coord, d: Direction, e: Direction)
    requires m.Has(c)
    ensures Move(m, Move(m, c, d), Opposite(d)) == c
    ensures m.Legal() ==> Move(m, c, d) != c
    ensures m.Legal() && d != e ==> Move(m, c, d) != Move(m, c, e)
  {
    match d {
      case Up => match e { case Up => case Down => case Left => case Right => }
      case Down => match e { case Up => case Down => case Left => case Right => }
      case Left => match e { case Up => case Down => case Left => case Right => }
      case Right => match e { case Up => case Down => case Left => case Right => }
    }
  }

  lemma AdjacentSymmetric(m: Dims, a: Coord, b: Coord)
    requires m.Has(a) && Adjacent(m, a, b)
    ensures m.Has(b) && Adjacent(m, b, a)
  {
    forall d | b == Move(m, a, d) ensures Move(m, b, Opposite(d)) == a {
      MoveFacts(m, a, d, d);
    }
  }

  /** A set of tiles is closed when no step leaves it. */
  ghost predicate Closed(m: Dims, s: set<Coord>) {
    forall c, d :: c in s && m.Has(c) ==> Move(m, c, d) in s
  }

  lemma {:induction false} ClosedAlongRow(m: Dims, s: set<Coord>, c: Coord, k: nat)
    requires Closed(m, s) && c in s && m.Has(c) && k < m.width
    ensures Coord(c.row, k) in s
    decreases if k < c.col then c.col - k else k - c.col
  {
    if k < c.col {
      assert Move(m, c, Left) in s;
      ClosedAlongRow(m, s, Coord(c.row, c.col - 1), k);
    } else if c.col < k {
      assert Move(m, c, Right) in s;
      ClosedAlongRow(m, s, Coord(c.row, c.col + 1), k);
    }
  }

  lemma {:induction false} ClosedAlongColumn(m: Dims, s: set<Coord>, c: Coord, k: nat)
    requires Closed(m, s) && c in s && m.Has(c) && k < m.height
    ensures Coord(k, c.col) in s
    decreases if k < c.row then c.row - k else k - c.row
  {
    if k < c.row {
      assert Move(m, c, Up) in s;
      ClosedAlongColumn(m, s, Coord(c.row - 1, c.col), k);
    } else if c.row < k {
      assert Move(m, c, Down) in s;
      ClosedAlongColumn(m, s, Coord(c.row + 1, c.col), k);
    }
  }

  /** The torus is connected: a closed set with one tile of the field holds the whole field. */
  lemma Connected(m: Dims, s: set<Coord>, c: Coord)
    requires Closed(m, s) && c in s && m.Has(c)
    ensures m.All() <= s
  {
    forall x | x in m.All() ensures x in s {
      ClosedAlongRow(m, s, c, x.col);
      ClosedAlongColumn(m, s, Coord(c.row, x.col), x.row);
    }
  }

  /** The row-major position of a tile. */
  function Index(m: Dims, c: Coord): nat {
    m.width * c.row + c.col
  }

  /** The number of tiles, which is the size of a buffer with one entry per tile. */
  function Size(m: Dims): nat {
    m.width * m.height
  }

  /** Row-major positions stay inside a buffer of width * height entries and tell tiles apart. */
  lemma IndexFacts(m: Dims, a: Coord, b: Coord)
    requires m.Has(a) && m.Has(b)
    ensures Index(m, a) < Size(m)
    ensures Index(m, a) == Index(m, b) ==> a == b
  {
    RowsApart(m.width, a.row, m.height);
    if a.row < b.row {
      RowsApart(m.width, a.row, b.row);
    } else if b.row < a.row {
      RowsApart(m.width, b.row, a.row);
    }
  }

  lemma LastRow(m: Dims)
    requires m.height > 0
    ensures |m.All()| == |Dims(m.width, m.height - 1).All()| + m.width
  {
    var upper := Dims(m.width, m.height - 1).All();
    var last := Row(m.height - 1, m.width);
    assert m.All() == upper + last && upper !! last;
    CountRow(m.height - 1, m.width);
  }

  /** The field has width * height tiles. */
  lemma {:induction false} CountAll(m: Dims)
    ensures |m.All()| == Size(m)
    decreases m.height
  {
    if m.height == 0 {
      assert m.All() == {};
    } else {
      CountAll(Dims(m.width, m.height - 1));
      LastRow(m);
      TimesNext(m.width, m.height - 1);
    }
  }

  ghost function Row(r: nat, n: nat): set<Coord> {
    set c | 0 <= c < n :: Coord(r, c)
  }

  lemma {:induction false} CountRow(r: nat, n: nat)
    ensures |Row(r, n)| == n
  {
    if n == 0 {
      assert Row(r, 0) == {};
    } else {
      CountRow(r, n - 1);
      assert Row(r, n) == Row(r, n - 1) + {Coord(r, n - 1)};
    }
  }
}
