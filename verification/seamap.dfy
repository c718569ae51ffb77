/**
 The fog-of-war sea map: a 5x5 grid of tiles stored row by row, each tile
 carrying its coordinates, its hidden type and two one-way flags, `revealed`
 and `used`.
 */
module SeaMap {
  import opened Options
  import opened Numbers

  const MapSize: int := 5

  datatype Coord = Coord(x: int, y: int)

  /** The four kinds of tile a map square can hide. */
  datatype TileKind = OpenSea | Island | Skull | Treasure

  datatype Tile = Tile(x: int, y: int, kind: TileKind, revealed: bool, used: bool)

  /** The tiles in the order the map builds them: row by row, left to right. */
  type Grid = seq<Tile>

  predicate InBounds(c: Coord) {
    0 <= c.x < MapSize && 0 <= c.y < MapSize
  }

  /** Position of the tile at `c` in the row-by-row tile list. */
  function Index(c: Coord): (i: nat)
    requires InBounds(c)
    ensures i < MapSize * MapSize
  {
    c.y * MapSize + c.x
  }

  /** The coordinates of the tile stored at position `i`. */
  function CoordAt(i: nat): (c: Coord)
    requires i < MapSize * MapSize
    ensures InBounds(c) && Index(c) == i
  {
    Coord(i % MapSize, i / MapSize)
  }

  /** Manhattan distance between two squares. */
  function Distance(a: Coord, b: Coord): nat {
    Abs(a.x - b.x) + Abs(a.y - b.y)
  }

  /** Every square of the map is present, at the position its coordinates dictate. */
  ghost predicate WellFormed(g: Grid) {
    && |g| == MapSize * MapSize
    && forall c :: InBounds(c) ==> g[Index(c)].x == c.x && g[Index(c)].y == c.y
  }

  /** Two grids hold the same squares with the same hidden types; only flags may differ. */
  ghost predicate SameLayout(g: Grid, g': Grid)
    requires WellFormed(g) && WellFormed(g')
  {
    forall c :: InBounds(c) ==> g'[Index(c)].kind == g[Index(c)].kind
  }

  /** No flag is ever cleared: what was revealed or used stays so. */
  ghost predicate FlagsGrow(g: Grid, g': Grid)
    requires WellFormed(g) && WellFormed(g')
  {
    forall c :: InBounds(c) ==>
      && (g[Index(c)].revealed ==> g'[Index(c)].revealed)
      && (g[Index(c)].used ==> g'[Index(c)].used)
  }

  // ---------------------------------------------------------------------------
  // getTileAt: a linear search for the tile with the given coordinates

  /** The first tile of `g` whose coordinates are (x, y), if any. */
  function TileAt(g: Grid, x: int, y: int): (r: Option<Tile>)
    ensures r.Some? ==> r.value in g && r.value.x == x && r.value.y == y
    ensures r.Some? ==>
      exists i :: (0 <= i < |g| && g[i] == r.value &&
                   forall j :: 0 <= j < i ==> g[j].x != x || g[j].y != y)
    ensures r.None? ==> forall t :: t in g ==> t.x != x || t.y != y
  {
    if |g| == 0 then None
    else if g[0].x == x && g[0].y == y then Some(g[0])
    else TileAt(g[1..], x, y)
  }

  /** On a well-formed map the search finds exactly the square at those coordinates, and
      finds nothing for coordinates off the map. */
  lemma TileAtFindsSquare(g: Grid, c: Coord)
    requires WellFormed(g)
    ensures InBounds(c) ==> TileAt(g, c.x, c.y) == Some(g[Index(c)])
    ensures !InBounds(c) ==> TileAt(g, c.x, c.y) == None
  {
    var r := TileAt(g, c.x, c.y);
    if r.Some? {
      var i :| 0 <= i < |g| && g[i] == r.value;
      var d := CoordAt(i);
      assert g[i].x == d.x && g[i].y == d.y;
      assert d == c;
    }
  }

  // ---------------------------------------------------------------------------
  // getNeighbors

  /** The four compass steps, in the order the neighbours are collected. */
  const Directions: seq<Coord> := [Coord(-1, 0), Coord(1, 0), Coord(0, -1), Coord(0, 1)]

  function Step(c: Coord, d: Coord): Coord {
    Coord(c.x + d.x, c.y + d.y)
  }

  predicate Distinct<T(==)>(s: seq<T>) {
    forall i, j :: 0 <= i < j < |s| ==> s[i] != s[j]
  }

  /** The squares reached from `c` by each step of `dirs` that stay on the map, in order. */
  function NeighborsAlong(c: Coord, dirs: seq<Coord>): (ns: seq<Coord>)
    ensures |ns| <= |dirs|
    ensures forall n :: n in ns <==> InBounds(n) && exists d :: d in dirs && n == Step(c, d)
    ensures Distinct(dirs) ==> Distinct(ns)
  {
    if |dirs| == 0 then []
    else
      var n := Step(c, dirs[0]);
      var rest := NeighborsAlong(c, dirs[1..]);
      assert forall d :: d in dirs <==> d == dirs[0] || d in dirs[1..];
      if InBounds(n) then
        [n] + rest
      else
        rest
  }

  /** The on-map squares orthogonally adjacent to `c`. */
  function Neighbors(c: Coord): (ns: seq<Coord>)
    ensures |ns| <= 4
    ensures Distinct(ns)
    ensures forall n :: n in ns <==> InBounds(n) && Distance(c, n) == 1
  {
    var ns := NeighborsAlong(c, Directions);
    assert Distinct(Directions);
    forall n ensures Distance(c, n) == 1 <==> exists d :: d in Directions && n == Step(c, d) {
      if Distance(c, n) == 1 {
        var d := Coord(n.x - c.x, n.y - c.y);
        assert n == Step(c, d);
        assert d in Directions;
      }
    }
    ns
  }

  /** Adjacency is symmetric: `a` lists `b` as a neighbour exactly when `b` lists `a`. */
  lemma NeighborsSymmetric(a: Coord, b: Coord)
    requires InBounds(a) && InBounds(b)
    ensures b in Neighbors(a) <==> a in Neighbors(b)
  {
  }

  /** How many steps of `dirs` from `c` stay on the map. */
  function OnMapSteps(c: Coord, dirs: seq<Coord>): nat {
    if |dirs| == 0 then 0
    else (if InBounds(Step(c, dirs[0])) then 1 else 0) + OnMapSteps(c, dirs[1..])
  }

  lemma {:induction false} NeighborsAlongCount(c: Coord, dirs: seq<Coord>)
    ensures |NeighborsAlong(c, dirs)| == OnMapSteps(c, dirs)
  {
    if |dirs| > 0 {
      NeighborsAlongCount(c, dirs[1..]);
    }
  }

  /** A corner square has two neighbours, an edge square three, an inner square four. */
  lemma NeighborCount(c: Coord)
    requires InBounds(c)
    ensures |Neighbors(c)| == 4 - (if c.x == 0 || c.x == MapSize - 1 then 1 else 0)
                               - (if c.y == 0 || c.y == MapSize - 1 then 1 else 0)
  {
    NeighborsAlongCount(c, Directions);
    var d1, d2, d3 := Directions[1..], Directions[2..], Directions[3..];
    assert d1[1..] == d2 && d2[1..] == d3 && d3[1..] == [];
    assert OnMapSteps(c, d3) == (if c.y + 1 < MapSize then 1 else 0);
    assert OnMapSteps(c, d2) == (if c.y > 0 then 1 else 0) + OnMapSteps(c, d3);
    assert OnMapSteps(c, d1) == (if c.x + 1 < MapSize then 1 else 0) + OnMapSteps(c, d2);
    assert OnMapSteps(c, Directions) == (if c.x > 0 then 1 else 0) + OnMapSteps(c, d1);
  }

  // ---------------------------------------------------------------------------
  // revealTile and forEach(revealTile)

  /** Lift the fog from the square at `c`; a revealed square stays as it is. */
  function RevealTile(g: Grid, c: Coord): (r: Grid)
    requires WellFormed(g) && InBounds(c)
    ensures WellFormed(r) && SameLayout(g, r) && FlagsGrow(g, r)
    ensures r[Index(c)].revealed && r[Index(c)].used == g[Index(c)].used
    ensures forall d :: InBounds(d) && d != c ==> r[Index(d)] == g[Index(d)]
  {
    if g[Index(c)].revealed then g
    else g[Index(c) := g[Index(c)].(revealed := true)]
  }

  /** Revealing twice is revealing once. */
  lemma RevealTileIdempotent(g: Grid, c: Coord)
    requires WellFormed(g) && InBounds(c)
    ensures RevealTile(RevealTile(g, c), c) == RevealTile(g, c)
  {
  }

  /** Reveal every square of `cs`, one after the other. */
  function RevealAll(g: Grid, cs: seq<Coord>): (r: Grid)
    requires WellFormed(g)
    requires forall c :: c in cs ==> InBounds(c)
    ensures WellFormed(r) && SameLayout(g, r) && FlagsGrow(g, r)
    ensures forall d :: InBounds(d) ==> r[Index(d)].revealed == (g[Index(d)].revealed || d in cs)
    ensures forall d :: InBounds(d) ==> r[Index(d)].used == g[Index(d)].used
    decreases |cs|
  {
    if |cs| == 0 then g
    else
      assert forall d :: d in cs <==> d == cs[0] || d in cs[1..];
      RevealAll(RevealTile(g, cs[0]), cs[1..])
  }

  /** Reveal the neighbours of `c`, as the map does after a peaceful visit. */
  function RevealNeighbors(g: Grid, c: Coord): (r: Grid)
    requires WellFormed(g)
    ensures WellFormed(r) && SameLayout(g, r) && FlagsGrow(g, r)
    ensures forall d :: InBounds(d) ==>
      r[Index(d)].revealed == (g[Index(d)].revealed || Distance(c, d) == 1)
    ensures forall d :: InBounds(d) ==> r[Index(d)].used == g[Index(d)].used
  {
    RevealAll(g, Neighbors(c))
  }

  /** Lift the fog from the square at `c` and from its neighbours. */
  function RevealAround(g: Grid, c: Coord): (r: Grid)
    requires WellFormed(g) && InBounds(c)
    ensures WellFormed(r) && SameLayout(g, r) && FlagsGrow(g, r)
    ensures forall d :: InBounds(d) ==>
      r[Index(d)].revealed == (g[Index(d)].revealed || Distance(c, d) <= 1)
    ensures forall d :: InBounds(d) ==> r[Index(d)].used == g[Index(d)].used
  {
    var r := RevealNeighbors(RevealTile(g, c), c);
    assert forall d :: Distance(c, d) == 0 ==> d == c;
    r
  }

  /** Spend the square at `c`: its `used` flag is set and nothing else changes. */
  function MarkUsed(g: Grid, c: Coord): (r: Grid)
    requires WellFormed(g) && InBounds(c)
    ensures WellFormed(r) && SameLayout(g, r) && FlagsGrow(g, r)
    ensures forall d :: InBounds(d) ==>
      && r[Index(d)].revealed == g[Index(d)].revealed
      && r[Index(d)].used == (g[Index(d)].used || d == c)
  {
    g[Index(c) := g[Index(c)].(used := true)]
  }

  /** A fresh map: square `i` of the row-by-row list holds `kinds[i]`, all of it fogged
      and unvisited. */
  function BlankMap(kinds: seq<TileKind>): (g: Grid)
    requires |kinds| == MapSize * MapSize
    ensures WellFormed(g)
    ensures forall c :: InBounds(c) ==>
      && g[Index(c)].kind == kinds[Index(c)]
      && !g[Index(c)].revealed && !g[Index(c)].used
  {
    seq(MapSize * MapSize, i requires 0 <= i < MapSize * MapSize =>
      Tile(i % MapSize, i / MapSize, kinds[i], false, false))
  }

  // ---------------------------------------------------------------------------
  // isNeighboringRevealedTile

  /** The square at `c` is revealed or has a revealed neighbour; that is, some revealed
      square lies within one orthogonal step of it (itself included). */
  function NextToRevealed(g: Grid, c: Coord): (b: bool)
    requires WellFormed(g) && InBounds(c)
    ensures b <==> exists d :: InBounds(d) && Distance(c, d) <= 1 && g[Index(d)].revealed
  {
    var near := (exists n :: n in Neighbors(c) && g[Index(n)].revealed) || g[Index(c)].revealed;
    assert near <== exists d :: InBounds(d) && Distance(c, d) <= 1 && g[Index(d)].revealed by {
      if exists d :: InBounds(d) && Distance(c, d) <= 1 && g[Index(d)].revealed {
        var d :| InBounds(d) && Distance(c, d) <= 1 && g[Index(d)].revealed;
        if Distance(c, d) == 0 {
          assert d == c;
        } else {
          assert d in Neighbors(c);
        }
      }
    }
    near
  }
}
