/**
 * Tree planting (pepse/world/trees/Tree.java): a biased coin per column
 * decides where a tree stands, a planted column skips its neighbour, and
 * each tree gets a trunk and a square crown of leaves.
 */
module PepseTree {
  import opened Util
  import opened PepseBlock
  import opened PepseWorld
  import opened PepseTerrain
  import opened PepseTrunk
  import Oracle

  const PROBABILITY_TO_PLANT_TREE: real := 0.85
  const PROBABILITY_TO_PLANT_LEAF: real := 0.3
  const MIN_NUM_LEAVES: int := 2
  const MAX_NUM_LEAVES: int := 5

  /**
   * The draws of the generators seeded from coordinates: the planting coin
   * and the trunk height of a column, the crown size of a trunk top and the
   * coin of a leaf position.
   */
  datatype TreeDraws = TreeDraws(
    plantCoin: int -> real,
    trunkDraw: int -> nat,
    crownDraw: (int, int) -> nat,
    leafCoin: (int, int) -> real)

  /** The number of leaves from the crown's centre to each border: nextInt(3) + 2. */
  function CrownRadius(draw: nat): (r: int)
    ensures MIN_NUM_LEAVES <= r < MAX_NUM_LEAVES
  {
    Oracle.NextInt(draw, MAX_NUM_LEAVES - MIN_NUM_LEAVES) + MIN_NUM_LEAVES
  }

  /** A leaf grows at (cx, cy) when its coin is high enough and it is above the ground. */
  predicate LeafGrows(t: Terrain, d: TreeDraws, cx: int, cy: int)
  {
    d.leafCoin(cx, cy) > PROBABILITY_TO_PLANT_LEAF && GroundHeightAt(t, cx as real) > (cy + SIZE) as real
  }

  /** The leaves createLeavesInRow adds for row i, from column j on. */
  function LeavesInRow(t: Terrain, d: TreeDraws, layer: int, x0: int, y0: int, edge: int, i: int, j: int): seq<Obj>
    decreases edge - j
  {
    if j >= edge then []
    else
      var cx, cy := x0 + j * SIZE, y0 + i * SIZE;
      (if LeafGrows(t, d, cx, cy) then [Obj(LEAF_TAG, layer, cx, cy)] else []) +
      LeavesInRow(t, d, layer, x0, y0, edge, i, j + 1)
  }

  /** The leaves of rows i, i + 1, ... of a crown square with the given top-left corner. */
  function LeavesInRows(t: Terrain, d: TreeDraws, layer: int, x0: int, y0: int, edge: int, i: int): seq<Obj>
    decreases edge - i
  {
    if i >= edge then []
    else LeavesInRow(t, d, layer, x0, y0, edge, i, 0) + LeavesInRows(t, d, layer, x0, y0, edge, i + 1)
  }

  /** createLeaves(x, y): the crown centred on the trunk top (x, y), row by row. */
  function Crown(t: Terrain, d: TreeDraws, layer: int, x: int, y: int): seq<Obj>
  {
    var r := CrownRadius(d.crownDraw(x, y));
    LeavesInRows(t, d, layer, x - r * SIZE, y - r * SIZE, 2 * r + 1, 0)
  }

  /** The y one block above the topmost trunk block of column x: where the crown is centred. */
  function TrunkTop(t: Terrain, d: TreeDraws, x: int): int
  {
    TrunkBase(t, x) - NumTrunkBlocks(d.trunkDraw(x)) * SIZE
  }

  /** Everything createTree(x) adds: the trunk, then the crown on its top. */
  function TreeObjects(t: Terrain, d: TreeDraws, trunkLayer: int, leafLayer: int, x: int): seq<Obj>
  {
    TrunkBlocks(x, TrunkBase(t, x), NumTrunkBlocks(d.trunkDraw(x)), trunkLayer) + Crown(t, d, leafLayer, x, TrunkTop(t, d, x))
  }

  /** Everything createInRange adds from column x on; a planted column skips the next one. */
  function ForestFrom(t: Terrain, d: TreeDraws, trunkLayer: int, leafLayer: int, x: int, maxX: int): seq<Obj>
    decreases maxX - x + SIZE
  {
    if x > maxX then []
    else if d.plantCoin(x) > PROBABILITY_TO_PLANT_TREE then
      TreeObjects(t, d, trunkLayer, leafLayer, x) + ForestFrom(t, d, trunkLayer, leafLayer, x + 2 * SIZE, maxX)
    else ForestFrom(t, d, trunkLayer, leafLayer, x + SIZE, maxX)
  }

  /** The trunk x of every tree planted from column x on, in order. */
  function PlantedFrom(d: TreeDraws, x: int, maxX: int): seq<int>
    decreases maxX - x + SIZE
  {
    if x > maxX then []
    else if d.plantCoin(x) > PROBABILITY_TO_PLANT_TREE then [x] + PlantedFrom(d, x + 2 * SIZE, maxX)
    else PlantedFrom(d, x + SIZE, maxX)
  }

  function Elements(s: seq<int>): set<int>
  {
    set c | c in s
  }

  lemma ElementsAppend(s: seq<int>, u: seq<int>)
    ensures Elements(s + u) == Elements(s) + Elements(u)
  {
  }

  class Tree {
    const coll: ObjectCollection
    const terrain: Terrain
    const trunkLayer: int
    const leafLayer: int
    const draws: TreeDraws
    /** The trunk x of every tree of the first creation. */
    var allXWithTree: set<int>
    var isFirstCreation: bool

    constructor (coll: ObjectCollection, terrain: Terrain, trunkLayer: int, leafLayer: int, draws: TreeDraws)
      ensures this.coll == coll && this.terrain == terrain && this.draws == draws
      ensures this.trunkLayer == trunkLayer && this.leafLayer == leafLayer
      ensures allXWithTree == {} && isFirstCreation
    {
      this.coll := coll;
      this.terrain := terrain;
      this.trunkLayer := trunkLayer;
      this.leafLayer := leafLayer;
      this.draws := draws;
      allXWithTree := {};
      isFirstCreation := true;
    }

    /**
     * Tree.createInRange: plants the forest of the range; only the first
     * call records the trunk positions, and every call ends the first creation.
     */
    method CreateInRange(minX: int, maxX: int)
      modifies this, coll
      ensures coll.objects == old(coll.objects) + ForestFrom(terrain, draws, trunkLayer, leafLayer, RoundInt(minX), maxX)
      ensures old(isFirstCreation) ==> allXWithTree == old(allXWithTree) + Elements(PlantedFrom(draws, RoundInt(minX), maxX))
      ensures !old(isFirstCreation) ==> allXWithTree == old(allXWithTree)
      ensures !isFirstCreation
    {
      var x := RoundInt(minX);
      ghost var firstX := x;
      ghost var planted: seq<int> := [];
      ghost var created: seq<Obj> := [];
      while x <= maxX
        invariant OnGrid(x)
        invariant coll.objects == old(coll.objects) + created
        invariant created + ForestFrom(terrain, draws, trunkLayer, leafLayer, x, maxX) ==
          ForestFrom(terrain, draws, trunkLayer, leafLayer, firstX, maxX)
        invariant planted + PlantedFrom(draws, x, maxX) == PlantedFrom(draws, firstX, maxX)
        invariant isFirstCreation == old(isFirstCreation)
        invariant allXWithTree == old(allXWithTree) + (if isFirstCreation then Elements(planted) else {})
        decreases maxX - x + SIZE
      {
        ForestAdvance(terrain, draws, trunkLayer, leafLayer, x, maxX, firstX, created, planted);
        ghost var tree := Planted(terrain, draws, trunkLayer, leafLayer, x);
        ghost var trunk := Trunks(draws, x);
        ElementsAppend(planted, trunk);
        x := PlantColumn(x);
        AppendAssoc(old(coll.objects), created, tree);
        planted := planted + trunk;
        created := created + tree;
      }
      isFirstCreation := false;
    }

    /** One column of createInRange's scan: a tree when the coin says so, and the column to look at next. */
    method PlantColumn(x: int) returns (next: int)
      requires OnGrid(x)
      modifies this, coll
      ensures coll.objects == old(coll.objects) + Planted(terrain, draws, trunkLayer, leafLayer, x)
      ensures isFirstCreation ==> allXWithTree == old(allXWithTree) + Elements(Trunks(draws, x))
      ensures !isFirstCreation ==> allXWithTree == old(allXWithTree)
      ensures isFirstCreation == old(isFirstCreation)
      ensures next == NextColumn(draws, x) && OnGrid(next)
    {
      next := x;
      if draws.plantCoin(x) > PROBABILITY_TO_PLANT_TREE {
        OnGridShift(x, 1);
        next := CreateTree(x);
        assert Elements([x]) == {x};
      } else {
        assert Elements([]) == {};
      }
      OnGridShift(next, 1);
      next := next + SIZE;
    }

    /** Tree.isTreeInX: membership in the recorded trunk positions. */
    predicate IsTreeInX(x: int)
      reads this
    {
      x in allXWithTree
    }

    /** Tree.createTree: a trunk and its crown; returns the column after x. */
    method CreateTree(x: int) returns (next: int)
      requires OnGrid(x)
      modifies this, coll
      ensures coll.objects == old(coll.objects) + TrunkBlocks(x, TrunkBase(terrain, x), NumTrunkBlocks(draws.trunkDraw(x)), trunkLayer)
                              + Crown(terrain, draws, leafLayer, x, TrunkTop(terrain, draws, x))
      ensures isFirstCreation ==> allXWithTree == old(allXWithTree) + {x}
      ensures !isFirstCreation ==> allXWithTree == old(allXWithTree)
      ensures isFirstCreation == old(isFirstCreation)
      ensures next == x + SIZE
    {
      var y := PepseTrunk.Create(x, coll, terrain, trunkLayer, draws.trunkDraw(x));
      CreateLeaves(x, y);
      if isFirstCreation {
        RoundedOnGrid(x);
        allXWithTree := allXWithTree + {RoundInt(x)};
      }
      next := x + SIZE;
    }

    /** Tree.createLeaves: the crown square of half-width r around (x, y), row by row. */
    method CreateLeaves(x: int, y: int)
      modifies coll
      ensures coll.objects == old(coll.objects) + Crown(terrain, draws, leafLayer, x, y)
    {
      var numLeavesPerSide := CrownRadius(draws.crownDraw(x, y));
      var numLeavesPerEdge := 2 * numLeavesPerSide + 1;
      CreateLeafRows(x - numLeavesPerSide * SIZE, y - numLeavesPerSide * SIZE, numLeavesPerEdge);
    }

    /** The row loop of createLeaves: rows 0 to edge - 1 of the square with top-left corner (x0, y0). */
    method CreateLeafRows(x0: int, y0: int, edge: int)
      modifies coll
      ensures coll.objects == old(coll.objects) + LeavesInRows(terrain, draws, leafLayer, x0, y0, edge, 0)
    {
      var i := 0;
      while i < edge
        invariant i >= 0
        invariant coll.objects + LeavesInRows(terrain, draws, leafLayer, x0, y0, edge, i) ==
          old(coll.objects) + LeavesInRows(terrain, draws, leafLayer, x0, y0, edge, 0)
        decreases edge - i
      {
        ghost var before := coll.objects;
        ghost var row := LeavesInRow(terrain, draws, leafLayer, x0, y0, edge, i, 0);
        ghost var rest := LeavesInRows(terrain, draws, leafLayer, x0, y0, edge, i + 1);
        assert LeavesInRows(terrain, draws, leafLayer, x0, y0, edge, i) == row + rest;
        CreateLeavesInRow(x0, y0, edge, i);
        assert coll.objects + rest == before + (row + rest);
        i := i + 1;
      }
      assert coll.objects + LeavesInRows(terrain, draws, leafLayer, x0, y0, edge, i) == coll.objects + [];
    }

    /** Tree.createLeavesInRow: the leaves of row i, left to right. */
    method CreateLeavesInRow(x0: int, y0: int, edge: int, i: int)
      modifies coll
      ensures coll.objects == old(coll.objects) + LeavesInRow(terrain, draws, leafLayer, x0, y0, edge, i, 0)
    {
      var j := 0;
      while j < edge
        invariant j >= 0
        invariant coll.objects + LeavesInRow(terrain, draws, leafLayer, x0, y0, edge, i, j) ==
          old(coll.objects) + LeavesInRow(terrain, draws, leafLayer, x0, y0, edge, i, 0)
        decreases edge - j
      {
        var currentX := x0 + j * SIZE;
        var currentY := y0 + i * SIZE;
        ghost var before := coll.objects;
        ghost var rest := LeavesInRow(terrain, draws, leafLayer, x0, y0, edge, i, j + 1);
        if draws.leafCoin(currentX, currentY) > PROBABILITY_TO_PLANT_LEAF &&
           GroundHeightAt(terrain, currentX as real) > (currentY + SIZE) as real {
          var leaf := Obj(LEAF_TAG, leafLayer, currentX, currentY);
          coll.Add(leaf);
          assert LeavesInRow(terrain, draws, leafLayer, x0, y0, edge, i, j) == [leaf] + rest;
          assert coll.objects + rest == before + ([leaf] + rest);
        } else {
          assert LeavesInRow(terrain, draws, leafLayer, x0, y0, edge, i, j) == rest;
        }
        j := j + 1;
      }
    }
  }

  /** One step of createInRange's scan: a planted column contributes its tree and skips the next column. */
  lemma ForestStep(t: Terrain, d: TreeDraws, trunkLayer: int, leafLayer: int, x: int, maxX: int)
    requires x <= maxX
    ensures d.plantCoin(x) > PROBABILITY_TO_PLANT_TREE ==>
      ForestFrom(t, d, trunkLayer, leafLayer, x, maxX) ==
        TreeObjects(t, d, trunkLayer, leafLayer, x) + ForestFrom(t, d, trunkLayer, leafLayer, x + 2 * SIZE, maxX) &&
      PlantedFrom(d, x, maxX) == [x] + PlantedFrom(d, x + 2 * SIZE, maxX)
    ensures d.plantCoin(x) <= PROBABILITY_TO_PLANT_TREE ==>
      ForestFrom(t, d, trunkLayer, leafLayer, x, maxX) == ForestFrom(t, d, trunkLayer, leafLayer, x + SIZE, maxX) &&
      PlantedFrom(d, x, maxX) == PlantedFrom(d, x + SIZE, maxX)
  {
  }

  /** What createInRange adds at column x: the tree when one is planted there, nothing otherwise. */
  function Planted(t: Terrain, d: TreeDraws, trunkLayer: int, leafLayer: int, x: int): seq<Obj>
  {
    if d.plantCoin(x) > PROBABILITY_TO_PLANT_TREE then TreeObjects(t, d, trunkLayer, leafLayer, x) else []
  }

  /** The trunk position createInRange records at column x: x when a tree is planted there. */
  function Trunks(d: TreeDraws, x: int): seq<int>
  {
    if d.plantCoin(x) > PROBABILITY_TO_PLANT_TREE then [x] else []
  }

  /** The column createInRange looks at after x: a planted column skips its neighbour. */
  function NextColumn(d: TreeDraws, x: int): int
  {
    if d.plantCoin(x) > PROBABILITY_TO_PLANT_TREE then x + 2 * SIZE else x + SIZE
  }

  /** The scan of createInRange moves on by one column: what is created and planted so far grows accordingly. */
  lemma ForestAdvance(t: Terrain, d: TreeDraws, trunkLayer: int, leafLayer: int, x: int, maxX: int, firstX: int,
                      created: seq<Obj>, planted: seq<int>)
    requires x <= maxX
    requires created + ForestFrom(t, d, trunkLayer, leafLayer, x, maxX) == ForestFrom(t, d, trunkLayer, leafLayer, firstX, maxX)
    requires planted + PlantedFrom(d, x, maxX) == PlantedFrom(d, firstX, maxX)
    ensures (created + Planted(t, d, trunkLayer, leafLayer, x)) + ForestFrom(t, d, trunkLayer, leafLayer, NextColumn(d, x), maxX)
            == ForestFrom(t, d, trunkLayer, leafLayer, firstX, maxX)
    ensures (planted + Trunks(d, x)) + PlantedFrom(d, NextColumn(d, x), maxX)
            == PlantedFrom(d, firstX, maxX)
  {
    ForestStep(t, d, trunkLayer, leafLayer, x, maxX);
    var next := NextColumn(d, x);
    if d.plantCoin(x) > PROBABILITY_TO_PLANT_TREE {
      var tree := TreeObjects(t, d, trunkLayer, leafLayer, x);
      var rest := ForestFrom(t, d, trunkLayer, leafLayer, next, maxX);
      assert created + (tree + rest) == (created + tree) + rest;
      assert planted + ([x] + PlantedFrom(d, next, maxX)) == (planted + [x]) + PlantedFrom(d, next, maxX);
    } else {
      assert created + [] == created;
      assert planted + [] == planted;
    }
  }

  /** Every planted trunk lies in the range, on the grid of the first column. */
  lemma {:induction false} PlantedBounds(d: TreeDraws, x: int, maxX: int)
    ensures forall c :: c in PlantedFrom(d, x, maxX) ==> x <= c <= maxX && (c - x) % SIZE == 0
    decreases maxX - x + SIZE
  {
    if x <= maxX {
      if d.plantCoin(x) > PROBABILITY_TO_PLANT_TREE {
        PlantedBounds(d, x + 2 * SIZE, maxX);
      } else {
        PlantedBounds(d, x + SIZE, maxX);
      }
    }
  }

  /** No two trees stand in adjacent columns: consecutive trunks are at least two blocks apart. */
  lemma {:induction false} PlantedGaps(d: TreeDraws, x: int, maxX: int)
    ensures forall k :: 0 <= k < |PlantedFrom(d, x, maxX)| - 1 ==>
      PlantedFrom(d, x, maxX)[k] + 2 * SIZE <= PlantedFrom(d, x, maxX)[k + 1]
    decreases maxX - x + SIZE
  {
    if x <= maxX {
      if d.plantCoin(x) > PROBABILITY_TO_PLANT_TREE {
        PlantedGaps(d, x + 2 * SIZE, maxX);
        PlantedBounds(d, x + 2 * SIZE, maxX);
        var rest := PlantedFrom(d, x + 2 * SIZE, maxX);
        var p := PlantedFrom(d, x, maxX);
        assert p == [x] + rest;
        forall k | 0 <= k < |p| - 1
          ensures p[k] + 2 * SIZE <= p[k + 1]
        {
          if k == 0 {
            assert rest[0] in rest;
          } else {
            assert p[k] == rest[k - 1] && p[k + 1] == rest[k];
          }
        }
      } else {
        PlantedGaps(d, x + SIZE, maxX);
      }
    }
  }

  /**
   * A column of the range holds a tree exactly when its coin exceeds 0.85
   * and it is the first column or the column before it holds none.
   */
  lemma {:induction false} PlantedIff(d: TreeDraws, x: int, maxX: int, c: int)
    ensures c in PlantedFrom(d, x, maxX) <==>
      x <= c <= maxX && (c - x) % SIZE == 0 && d.plantCoin(c) > PROBABILITY_TO_PLANT_TREE &&
      (c == x || c - SIZE !in PlantedFrom(d, x, maxX))
    decreases maxX - x + SIZE
  {
    if x <= maxX {
      if d.plantCoin(x) > PROBABILITY_TO_PLANT_TREE {
        var next := x + 2 * SIZE;
        PlantedBounds(d, next, maxX);
        PlantedIff(d, next, maxX, c);
        assert x + SIZE !in PlantedFrom(d, next, maxX);
      } else {
        var next := x + SIZE;
        PlantedBounds(d, next, maxX);
        PlantedIff(d, next, maxX, c);
      }
    } else {
      PlantedBounds(d, x, maxX);
    }
  }

  /** The leaves of one row: on the row's y, on the grid from column j on, where LeafGrows holds. */
  lemma {:induction false} LeavesInRowContents(t: Terrain, d: TreeDraws, layer: int, x0: int, y0: int, edge: int, i: int, j: int, o: Obj)
    requires j >= 0
    ensures o in LeavesInRow(t, d, layer, x0, y0, edge, i, j) <==>
      o.tag == LEAF_TAG && o.layer == layer && o.y == y0 + i * SIZE &&
      x0 + j * SIZE <= o.x < x0 + edge * SIZE && (o.x - x0) % SIZE == 0 &&
      LeafGrows(t, d, o.x, o.y)
    decreases edge - j
  {
    if j < edge {
      LeavesInRowContents(t, d, layer, x0, y0, edge, i, j + 1, o);
      assert (j + 1) * SIZE == j * SIZE + SIZE;
      if (o.x - x0) % SIZE == 0 && j * SIZE <= o.x - x0 {
        GridStep(o.x - x0, j);
      }
    }
  }

  /** The leaves of rows i.. of a crown: exactly the grid positions of those rows where LeafGrows holds. */
  lemma {:induction false} LeavesInRowsContents(t: Terrain, d: TreeDraws, layer: int, x0: int, y0: int, edge: int, i: int, o: Obj)
    requires i >= 0
    ensures o in LeavesInRows(t, d, layer, x0, y0, edge, i) <==>
      o.tag == LEAF_TAG && o.layer == layer &&
      x0 <= o.x < x0 + edge * SIZE && (o.x - x0) % SIZE == 0 &&
      y0 + i * SIZE <= o.y < y0 + edge * SIZE && (o.y - y0) % SIZE == 0 &&
      LeafGrows(t, d, o.x, o.y)
    decreases edge - i
  {
    if i < edge {
      LeavesInRowContents(t, d, layer, x0, y0, edge, i, 0, o);
      LeavesInRowsContents(t, d, layer, x0, y0, edge, i + 1, o);
      assert (i + 1) * SIZE == i * SIZE + SIZE;
      if (o.y - y0) % SIZE == 0 && i * SIZE <= o.y - y0 {
        GridStep(o.y - y0, i);
      }
    }
  }

  /**
   * A crown around the trunk top (x, y) holds a leaf at (cx, cy) exactly when
   * the position is on the grid inside the square of half-width r blocks,
   * with r in [2, 4], and LeafGrows holds there.
   */
  lemma CrownContents(t: Terrain, d: TreeDraws, layer: int, x: int, y: int, o: Obj)
    ensures var r := CrownRadius(d.crownDraw(x, y));
      2 <= r <= 4 &&
      (o in Crown(t, d, layer, x, y) <==>
        o.tag == LEAF_TAG && o.layer == layer &&
        x - r * SIZE <= o.x <= x + r * SIZE && (o.x - x) % SIZE == 0 &&
        y - r * SIZE <= o.y <= y + r * SIZE && (o.y - y) % SIZE == 0 &&
        LeafGrows(t, d, o.x, o.y))
  {
    var r := CrownRadius(d.crownDraw(x, y));
    var x0, y0, edge := x - r * SIZE, y - r * SIZE, 2 * r + 1;
    LeavesInRowsContents(t, d, layer, x0, y0, edge, 0, o);
    assert y0 + 0 * SIZE == y0;
    SquareCoord(o.x, x, r);
    SquareCoord(o.y, y, r);
  }

  /** One axis of a crown square: the grid positions from lo over edge blocks are those at most r blocks from the centre. */
  lemma SquareCoord(c: int, center: int, r: int)
    ensures var lo, edge := center - r * SIZE, 2 * r + 1;
      (lo <= c < lo + edge * SIZE && (c - lo) % SIZE == 0) <==>
      (center - r * SIZE <= c <= center + r * SIZE && (c - center) % SIZE == 0)
  {
    var lo, edge := center - r * SIZE, 2 * r + 1;
    assert lo + edge * SIZE == center + (r + 1) * SIZE;
    ModShift(c - center, r);
    assert c - lo == (c - center) + r * SIZE;
    if (c - center) % SIZE == 0 {
      GridSquare(c - center, r);
    }
  }

  /** On the grid, being below the next block boundary is being at most r blocks away. */
  lemma GridSquare(a: int, r: int)
    requires a % SIZE == 0
    ensures a < (r + 1) * SIZE <==> a <= r * SIZE
  {
    var q := a / SIZE;
    assert a == q * SIZE;
    if a < (r + 1) * SIZE {
      assert q < r + 1;
    }
  }
}
