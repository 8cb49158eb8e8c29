/**
 * Terrain synthesis (pepse/world/Terrain.java): the ground height of a column
 * is a pure function of its x, and a column is a stack of TERRAIN_DEPTH ground
 * blocks that starts at the rounded height.
 */
module PepseTerrain {
  import opened PepseBlock
  import opened PepseWorld

  /** Terrain.TERRAIN_DEPTH: the number of ground blocks in one column. */
  const TERRAIN_DEPTH: int := 20

  /**
   * A terrain: the height at x = 0, the Perlin noise (an abstract pure
   * function supplied from outside) and the layer of the ground blocks.
   */
  datatype Terrain = Terrain(groundHeightAtX0: real, noise: real -> real, groundLayer: int)

  /** The constructor: the height at x = 0 is 2/3 of the window height. */
  function NewTerrain(windowHeight: real, noise: real -> real, groundLayer: int): (t: Terrain)
    ensures t.groundHeightAtX0 * 3.0 == windowHeight * 2.0
    ensures t.noise == noise && t.groundLayer == groundLayer
  {
    Terrain(2.0 / 3.0 * windowHeight, noise, groundLayer)
  }

  /** Terrain.groundHeightAt: a function of x alone, with no noise at x = 0. */
  function GroundHeightAt(t: Terrain, x: real): real
  {
    if x == 0.0 then t.groundHeightAtX0
    else t.groundHeightAtX0 + t.groundHeightAtX0 * t.noise(x / SIZE as real)
  }

  /** The y of the first ground block of column x. */
  function ColumnTop(t: Terrain, x: int): int
  {
    RoundedCoordinate(GroundHeightAt(t, x as real))
  }

  /** The blocks createInRange adds for one column, top to bottom. */
  function Column(t: Terrain, x: int): (col: seq<Obj>)
    ensures |col| == TERRAIN_DEPTH
  {
    seq(TERRAIN_DEPTH, i => Obj(GROUND_TAG, t.groundLayer, x, ColumnTop(t, x) + i * SIZE))
  }

  /** The blocks for the columns x, x + SIZE, ... that are not beyond maxX. */
  function ColumnsFrom(t: Terrain, x: int, maxX: int): seq<Obj>
    decreases maxX - x + SIZE
  {
    if x > maxX then [] else Column(t, x) + ColumnsFrom(t, x + SIZE, maxX)
  }

  /** Everything createInRange(minX, maxX) adds, in the order it adds it. */
  function GroundInRange(t: Terrain, minX: int, maxX: int): seq<Obj>
  {
    ColumnsFrom(t, RoundInt(minX), maxX)
  }

  /** The number of columns visited from x up to maxX. */
  function NumColumns(x: int, maxX: int): nat
  {
    if x > maxX then 0 else (maxX - x) / SIZE + 1
  }

  /**
   * Terrain.createInRange: visits the columns from the rounded minX in steps
   * of SIZE while x <= maxX, and adds TERRAIN_DEPTH ground blocks per column.
   */
  method CreateInRange(t: Terrain, coll: ObjectCollection, minX: int, maxX: int)
    modifies coll
    ensures coll.objects == old(coll.objects) + GroundInRange(t, minX, maxX)
  {
    var firstX := RoundInt(minX);
    var x := firstX;
    while x <= maxX
      invariant coll.objects + ColumnsFrom(t, x, maxX) == old(coll.objects) + ColumnsFrom(t, firstX, maxX)
      decreases maxX - x + SIZE
    {
      ghost var before := coll.objects;
      ghost var rest := ColumnsFrom(t, x + SIZE, maxX);
      assert ColumnsFrom(t, x, maxX) == Column(t, x) + rest;
      CreateColumn(t, coll, x);
      assert coll.objects + rest == before + (Column(t, x) + rest);
      x := x + SIZE;
    }
  }

  /** The inner loop of createInRange: the TERRAIN_DEPTH blocks of column x, from the top down. */
  method CreateColumn(t: Terrain, coll: ObjectCollection, x: int)
    modifies coll
    ensures coll.objects == old(coll.objects) + Column(t, x)
  {
    var y := ColumnTop(t, x);
    var i := 0;
    while i < TERRAIN_DEPTH
      invariant 0 <= i <= TERRAIN_DEPTH
      invariant y == ColumnTop(t, x) + i * SIZE
      invariant coll.objects == old(coll.objects) + Column(t, x)[..i]
    {
      assert Column(t, x)[..i + 1] == Column(t, x)[..i] + [Obj(GROUND_TAG, t.groundLayer, x, y)];
      CreateGroundBlock(t, coll, x, y);
      y := y + SIZE;
      i := i + 1;
    }
    assert Column(t, x)[..TERRAIN_DEPTH] == Column(t, x);
  }

  /** Terrain.createGroundBlock: one block tagged "ground" in the ground layer. */
  method CreateGroundBlock(t: Terrain, coll: ObjectCollection, x: int, y: int)
    modifies coll
    ensures coll.objects == old(coll.objects) + [Obj(GROUND_TAG, t.groundLayer, x, y)]
  {
    coll.Add(Obj(GROUND_TAG, t.groundLayer, x, y));
  }

  /** Terrain.isBlockInFirstTwoLayers. */
  predicate IsBlockInFirstTwoLayers(t: Terrain, o: Obj)
  {
    (o.y - 2 * SIZE) as real < GroundHeightAt(t, o.x as real)
  }

  /** The height at x = 0 is exactly 2/3 of the window height, whatever the noise. */
  lemma HeightAtOrigin(windowHeight: real, noise: real -> real, layer: int)
    ensures GroundHeightAt(NewTerrain(windowHeight, noise, layer), 0.0) * 3.0 == windowHeight * 2.0
  {
  }

  /**
   * Every block created for a range is a ground block of the ground layer, on
   * the grid, in a visited column and within the 20 blocks below that
   * column's rounded height; and every such position is created.
   */
  lemma {:induction false} ColumnsFromContents(t: Terrain, x: int, maxX: int, o: Obj)
    requires OnGrid(x)
    ensures o in ColumnsFrom(t, x, maxX) <==>
      o.tag == GROUND_TAG && o.layer == t.groundLayer &&
      x <= o.x <= maxX && OnGrid(o.x) &&
      ColumnTop(t, o.x) <= o.y < ColumnTop(t, o.x) + TERRAIN_DEPTH * SIZE &&
      OnGrid(o.y)
    decreases maxX - x + SIZE
  {
    if x <= maxX {
      ColumnsFromContents(t, x + SIZE, maxX, o);
      ColumnContents(t, x, o);
      if x < o.x && OnGrid(o.x) {
        GridGap(x, o.x);
      }
    }
  }

  /** The blocks of one column: the 20 grid positions from its rounded height down. */
  lemma ColumnContents(t: Terrain, x: int, o: Obj)
    ensures o in Column(t, x) <==>
      o.tag == GROUND_TAG && o.layer == t.groundLayer && o.x == x &&
      ColumnTop(t, x) <= o.y < ColumnTop(t, x) + TERRAIN_DEPTH * SIZE && OnGrid(o.y)
  {
    var top := ColumnTop(t, x);
    if o in Column(t, x) {
      var i :| 0 <= i < TERRAIN_DEPTH && Column(t, x)[i] == o;
      OnGridShift(top, i);
    }
    if o.tag == GROUND_TAG && o.layer == t.groundLayer && o.x == x &&
       top <= o.y < top + TERRAIN_DEPTH * SIZE && OnGrid(o.y) {
      var i := (o.y - top) / SIZE;
      assert top == (top / SIZE) * SIZE && o.y == (o.y / SIZE) * SIZE;
      assert o.y == top + i * SIZE;
      assert Column(t, x)[i] == o;
    }
  }

  /** A range holds TERRAIN_DEPTH blocks per visited column, and nothing if the rounded minX is beyond maxX. */
  lemma {:induction false} ColumnsFromSize(t: Terrain, x: int, maxX: int)
    ensures |ColumnsFrom(t, x, maxX)| == TERRAIN_DEPTH * NumColumns(x, maxX)
    ensures ColumnsFrom(t, x, maxX) == [] <==> x > maxX
    decreases maxX - x + SIZE
  {
    if x <= maxX {
      ColumnsFromSize(t, x + SIZE, maxX);
    }
  }

  /**
   * Streaming: creating the columns up to mid and then the columns after mid
   * yields exactly the blocks of creating the whole range at once.
   */
  lemma {:induction false} ColumnsFromSplit(t: Terrain, x: int, mid: int, maxX: int)
    requires x - SIZE <= mid <= maxX && (mid - x) % SIZE == 0
    ensures ColumnsFrom(t, x, maxX) == ColumnsFrom(t, x, mid) + ColumnsFrom(t, mid + SIZE, maxX)
    decreases mid - x + SIZE
  {
    if x <= mid {
      ModShift(mid - x, -1);
      ColumnsFromSplit(t, x + SIZE, mid, maxX);
    } else {
      assert mid - x == ((mid - x) / SIZE) * SIZE;
    }
  }

  /**
   * Of a column's blocks, the top two are always in the first two layers, the
   * third only when the height is not itself on the grid, and no deeper one.
   */
  lemma FirstTwoLayersOfColumn(t: Terrain, x: int, i: int)
    requires 0 <= i < TERRAIN_DEPTH
    ensures IsBlockInFirstTwoLayers(t, Column(t, x)[i]) <==>
      i < 2 || (i == 2 && (ColumnTop(t, x) as real) < GroundHeightAt(t, x as real))
  {
  }
}
