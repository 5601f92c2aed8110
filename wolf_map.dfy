/** The ray-casting engine's tile grid (Wolfenstein_Doom_Raycasting/map.py):
    a literal grid of wall-texture ids, 0 standing for the source's empty
    `_ = False` cell, turned into a dictionary keyed by (column, row). */
module WolfMap {

  /** A grid cell as (column, row), the key order of `world_map`. */
  type Cell = (int, int)

  const Rows := 32
  const Cols := 16

  /** `mini_map`, row by row; 0 is the empty cell `_`. */
  const MiniMap: seq<seq<int>> := [
    [1, 1, 1, 1, 1, 1, 1, 1, 1, 1, 1, 1, 1, 1, 1, 1],
    [1, 0, 0, 0, 0, 0, 0, 0, 0, 0, 0, 0, 0, 0, 0, 1],
    [1, 0, 0, 3, 3, 3, 3, 0, 0, 0, 2, 2, 2, 0, 0, 1],
    [1, 0, 0, 0, 0, 0, 4, 0, 0, 0, 0, 0, 2, 0, 0, 1],
    [1, 0, 0, 0, 0, 0, 4, 0, 0, 0, 0, 0, 2, 0, 0, 1],
    [1, 0, 0, 3, 3, 3, 3, 0, 0, 0, 0, 0, 0, 0, 0, 1],
    [1, 0, 0, 0, 0, 0, 0, 0, 0, 0, 0, 0, 0, 0, 0, 1],
    [1, 0, 0, 0, 4, 0, 0, 0, 4, 0, 0, 0, 0, 0, 0, 1],
    [1, 1, 1, 3, 1, 3, 1, 1, 1, 3, 0, 0, 3, 1, 1, 1],
    [1, 1, 1, 1, 1, 1, 1, 1, 1, 3, 0, 0, 3, 1, 1, 1],
    [1, 1, 1, 1, 1, 1, 1, 1, 1, 3, 0, 0, 3, 1, 1, 1],
    [1, 1, 3, 1, 1, 1, 1, 1, 1, 3, 0, 0, 3, 1, 1, 1],
    [1, 4, 0, 0, 0, 0, 0, 0, 0, 0, 0, 0, 0, 0, 0, 1],
    [3, 0, 0, 0, 0, 0, 0, 0, 0, 0, 0, 0, 0, 0, 0, 1],
    [1, 0, 0, 0, 0, 0, 0, 0, 0, 0, 0, 0, 0, 0, 0, 1],
    [1, 0, 0, 2, 0, 0, 0, 0, 0, 3, 4, 0, 4, 3, 0, 1],
    [1, 0, 0, 5, 0, 0, 0, 0, 0, 0, 3, 0, 3, 0, 0, 1],
    [1, 0, 0, 2, 0, 0, 0, 0, 0, 0, 0, 0, 0, 0, 0, 1],
    [1, 0, 0, 0, 0, 0, 0, 0, 0, 0, 0, 0, 0, 0, 0, 1],
    [3, 0, 0, 0, 0, 0, 0, 0, 0, 0, 0, 0, 0, 0, 0, 1],
    [1, 4, 0, 0, 0, 0, 0, 0, 4, 0, 0, 4, 0, 0, 0, 1],
    [1, 1, 3, 3, 0, 0, 3, 3, 1, 3, 3, 1, 3, 1, 1, 1],
    [1, 1, 1, 3, 0, 0, 3, 1, 1, 1, 1, 1, 1, 1, 1, 1],
    [1, 3, 3, 4, 0, 0, 4, 3, 3, 3, 3, 3, 3, 3, 3, 1],
    [3, 0, 0, 0, 0, 0, 0, 0, 0, 0, 0, 0, 0, 0, 0, 3],
    [3, 0, 0, 0, 0, 0, 0, 0, 0, 0, 0, 0, 0, 0, 0, 3],
    [3, 0, 0, 0, 0, 0, 0, 0, 0, 0, 0, 0, 0, 0, 0, 3],
    [3, 0, 0, 5, 0, 0, 0, 5, 0, 0, 0, 5, 0, 0, 0, 3],
    [3, 0, 0, 0, 0, 0, 0, 0, 0, 0, 0, 0, 0, 0, 0, 3],
    [3, 0, 0, 0, 0, 0, 0, 0, 0, 0, 0, 0, 0, 0, 0, 3],
    [3, 0, 0, 0, 0, 0, 0, 0, 0, 0, 0, 0, 0, 0, 0, 3],
    [3, 3, 3, 3, 3, 3, 3, 3, 3, 3, 3, 3, 3, 3, 3, 3]
  ]

  /** Cell (i, j) holds a wall in `grid`: row j exists, column i exists in it,
      and the entry is truthy. Note the transposition: the key is (column, row). */
  predicate WallAt(grid: seq<seq<int>>, c: Cell) {
    0 <= c.1 < |grid| && 0 <= c.0 < |grid[c.1]| && grid[c.1][c.0] != 0
  }

  /** The grid as a dictionary of its wall cells. */
  function WorldMapOf(grid: seq<seq<int>>): (m: map<Cell, int>)
    ensures forall c :: c in m <==> WallAt(grid, c)
    ensures forall c :: c in m ==> WallAt(grid, c) && m[c] == grid[c.1][c.0]
  {
    map c | c in CellsOf(grid) && WallAt(grid, c) :: grid[c.1][c.0]
  }

  /** All in-range cells of `grid` (a finite domain for the comprehension). */
  function CellsOf(grid: seq<seq<int>>): (cs: set<Cell>)
    ensures forall c :: WallAt(grid, c) ==> c in cs
  {
    set j, i | 0 <= j < |grid| && 0 <= i < |grid[j]| :: (i, j)
  }

  /** The `Map` object: `world_map` is filled by `get_map`. */
  class GameMap {
    const miniMap: seq<seq<int>>
    var worldMap: map<Cell, int>

    /** `Map.__init__`: starts from an empty dictionary and calls `get_map`. */
    constructor ()
      ensures miniMap == MiniMap
      ensures worldMap == WorldMapOf(MiniMap)
    {
      miniMap := MiniMap;
      worldMap := map[];
      new;
      GetMap();
    }

    /** `get_map`: for every row j and every column i, a truthy value is
        stored under (i, j); nothing else in the dictionary changes. */
    method GetMap()
      modifies this`worldMap
      ensures worldMap == old(worldMap) + WorldMapOf(miniMap)
    {
      var j := 0;
      while j < |miniMap|
        invariant 0 <= j <= |miniMap|
        invariant worldMap == old(worldMap) + FilledBefore(miniMap, j, 0)
      {
        var row := miniMap[j];
        var i := 0;
        while i < |row|
          invariant 0 <= i <= |row|
          invariant worldMap == old(worldMap) + FilledBefore(miniMap, j, i)
        {
          if row[i] != 0 {
            UnionUpdate(old(worldMap), FilledBefore(miniMap, j, i), (i, j), row[i]);
            worldMap := worldMap[(i, j) := row[i]];
          }
          i := i + 1;
        }
        j := j + 1;
      }
      FilledAll(miniMap);
    }
  }

  /** The dictionary `get_map` has built once it reaches column i of row j,
      cell by cell in the loop's own order. */
  function FilledBefore(grid: seq<seq<int>>, j: int, i: int): map<Cell, int>
    requires 0 <= j <= |grid|
    requires j < |grid| ==> 0 <= i <= |grid[j]|
    requires j == |grid| ==> i == 0
    decreases j, i
  {
    if i > 0 then
      var m := FilledBefore(grid, j, i - 1);
      if grid[j][i - 1] != 0 then m[(i - 1, j) := grid[j][i - 1]] else m
    else if j > 0 then FilledBefore(grid, j - 1, |grid[j - 1]|)
    else map[]
  }

  /** The cells stored so far are exactly the wall cells before (i, j) in
      row-major order, each with its grid value. */
  lemma {:induction false} FilledBeforeCells(grid: seq<seq<int>>, j: int, i: int)
    requires 0 <= j <= |grid|
    requires j < |grid| ==> 0 <= i <= |grid[j]|
    requires j == |grid| ==> i == 0
    ensures forall c :: c in FilledBefore(grid, j, i) <==>
      WallAt(grid, c) && (c.1 < j || (c.1 == j && c.0 < i))
    ensures forall c :: c in FilledBefore(grid, j, i) ==>
      WallAt(grid, c) && FilledBefore(grid, j, i)[c] == grid[c.1][c.0]
    decreases j, i
  {
    if i > 0 {
      FilledBeforeCells(grid, j, i - 1);
    } else if j > 0 {
      FilledBeforeCells(grid, j - 1, |grid[j - 1]|);
    }
  }

  lemma FilledAll(grid: seq<seq<int>>)
    ensures FilledBefore(grid, |grid|, 0) == WorldMapOf(grid)
  {
    FilledBeforeCells(grid, |grid|, 0);
  }

  lemma UnionUpdate<K, V>(a: map<K, V>, b: map<K, V>, k: K, v: V)
    ensures (a + b)[k := v] == a + b[k := v]
  {
  }

  // ---------------------------------------------------------------------
  // Facts about the shipped layout

  /** A rectangular grid of `rows` by `cols` texture ids (0..5) whose border
      cells are all walls. */
  predicate Enclosed(grid: seq<seq<int>>, rows: nat, cols: nat) {
    && |grid| == rows && rows > 0 && cols > 0
    && (forall r :: 0 <= r < rows ==> |grid[r]| == cols)
    && (forall r, k :: 0 <= r < rows && 0 <= k < |grid[r]| ==> 0 <= grid[r][k] <= 5)
    && (forall r :: 0 <= r < rows ==> grid[r][0] != 0 && grid[r][cols - 1] != 0)
    && (forall k :: 0 <= k < cols ==> grid[0][k] != 0 && grid[rows - 1][k] != 0)
  }

  /** The shipped layout is a 32 by 16 enclosed grid whose start cell (1, 5)
      is open. */
  lemma MiniMapEnclosed()
    ensures Enclosed(MiniMap, Rows, Cols)
    ensures MiniMap[5][1] == 0
  {
    MiniMapShape();
    MiniMapValuesTop();
    MiniMapValuesBottom();
    MiniMapBorder();
  }

  lemma MiniMapShape()
    ensures |MiniMap| == 32
    ensures forall r :: 0 <= r < 32 ==> |MiniMap[r]| == 16
  {
  }

  lemma MiniMapValuesTop()
    ensures forall r, k :: 0 <= r < 16 && 0 <= k < |MiniMap[r]| ==> 0 <= MiniMap[r][k] <= 5
  {
  }

  lemma MiniMapValuesBottom()
    ensures forall r, k :: 16 <= r < 32 && 0 <= k < |MiniMap[r]| ==> 0 <= MiniMap[r][k] <= 5
  {
  }

  lemma MiniMapBorder()
    ensures forall r :: 0 <= r < 32 ==> MiniMap[r][0] != 0 && MiniMap[r][15] != 0
    ensures forall k :: 0 <= k < 16 ==> MiniMap[0][k] != 0 && MiniMap[31][k] != 0
  {
  }

  /** In the dictionary of an enclosed grid every key lies inside the grid,
      every value is a texture id 1..5, and every border cell is a key, so a
      position inside the grid cannot leave it without meeting a wall. */
  lemma EnclosedWorldMap(grid: seq<seq<int>>, rows: nat, cols: nat)
    requires Enclosed(grid, rows, cols)
    ensures var m := WorldMapOf(grid);
      && (forall c :: c in m ==> 0 <= c.0 < cols && 0 <= c.1 < rows)
      && (forall c :: c in m ==> 1 <= m[c] <= 5)
      && (forall i :: 0 <= i < cols ==> (i, 0) in m && (i, rows - 1) in m)
      && (forall j :: 0 <= j < rows ==> (0, j) in m && (cols - 1, j) in m)
  {
  }

  /** The shipped world: all keys inside the 16 by 32 grid, values 1..5, a solid
      border, and the player's start cell (1, 5) (`PLAYER_POS = 1.5, 5`) open. */
  lemma MiniMapWorld()
    ensures var m := WorldMapOf(MiniMap);
      && (forall c :: c in m ==> 0 <= c.0 < Cols && 0 <= c.1 < Rows)
      && (forall c :: c in m ==> 1 <= m[c] <= 5)
      && (forall i :: 0 <= i < Cols ==> (i, 0) in m && (i, Rows - 1) in m)
      && (forall j :: 0 <= j < Rows ==> (0, j) in m && (Cols - 1, j) in m)
      && (1, 5) !in m
  {
    MiniMapEnclosed();
    EnclosedWorldMap(MiniMap, Rows, Cols);
  }
}
