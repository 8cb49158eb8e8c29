/**
 * Trunk stacking (pepse/world/trees/Trunk.java): a column of trunk blocks
 * that starts one block above the ground and grows upwards.
 */
module PepseTrunk {
  import opened PepseBlock
  import opened PepseWorld
  import opened PepseTerrain
  import Oracle

  const MIN_NUM_TRUNK_BLOCKS: int := 5
  const MAX_NUM_TRUNK_BLOCKS: int := 15

  /** The y of the lowest trunk block: one block above the rounded ground height. */
  function TrunkBase(t: Terrain, x: int): (y: int)
    ensures y == ColumnTop(t, x) - SIZE
    ensures OnGrid(y)
  {
    ((GroundHeightAt(t, x as real) / SIZE as real).Floor - 1) * SIZE
  }

  /** nextInt(MAX - MIN) + MIN with the draw of the column's own generator. */
  function NumTrunkBlocks(draw: nat): (n: int)
    ensures MIN_NUM_TRUNK_BLOCKS <= n < MAX_NUM_TRUNK_BLOCKS
  {
    Oracle.NextInt(draw, MAX_NUM_TRUNK_BLOCKS - MIN_NUM_TRUNK_BLOCKS) + MIN_NUM_TRUNK_BLOCKS
  }

  /** The trunk blocks in creation order: bottom first, each one block above the last. */
  function TrunkBlocks(x: int, base: int, n: nat, layer: int): (blocks: seq<Obj>)
    ensures |blocks| == n
  {
    seq(n, i => Obj(TRUNK_TAG, layer, x, base - i * SIZE))
  }

  /** Every height from 5 to 14 blocks is the outcome of some draw. */
  lemma EveryTrunkHeightReachable(n: int)
    requires MIN_NUM_TRUNK_BLOCKS <= n < MAX_NUM_TRUNK_BLOCKS
    ensures NumTrunkBlocks((n - MIN_NUM_TRUNK_BLOCKS) as nat) == n
  {
  }

  /**
   * Trunk.create: stacks NumTrunkBlocks(draw) blocks upwards from TrunkBase
   * and returns the y one block above the topmost block.
   */
  method Create(x: int, coll: ObjectCollection, t: Terrain, layer: int, draw: nat) returns (top: int)
    modifies coll
    ensures coll.objects == old(coll.objects) + TrunkBlocks(x, TrunkBase(t, x), NumTrunkBlocks(draw), layer)
    ensures top == TrunkBase(t, x) - NumTrunkBlocks(draw) * SIZE
  {
    var y := ((GroundHeightAt(t, x as real) / SIZE as real).Floor - 1) * SIZE;
    var numBlocks := Oracle.NextInt(draw, MAX_NUM_TRUNK_BLOCKS - MIN_NUM_TRUNK_BLOCKS) + MIN_NUM_TRUNK_BLOCKS;
    var i := 0;
    while i < numBlocks
      invariant 0 <= i <= numBlocks
      invariant y == TrunkBase(t, x) - i * SIZE
      invariant coll.objects == old(coll.objects) + TrunkBlocks(x, TrunkBase(t, x), numBlocks, layer)[..i]
    {
      coll.Add(Obj(TRUNK_TAG, layer, x, y));
      y := y - SIZE;
      i := i + 1;
    }
    assert TrunkBlocks(x, TrunkBase(t, x), numBlocks, layer)[..numBlocks] == TrunkBlocks(x, TrunkBase(t, x), numBlocks, layer);
    top := y;
  }

  /**
   * The shape of a created trunk: every block is a trunk block of the column
   * x on the grid, strictly between the returned top and the ground top, and
   * the block just below the returned y is the topmost one.
   */
  lemma TrunkShape(t: Terrain, x: int, layer: int, draw: nat)
    ensures var n, base := NumTrunkBlocks(draw), TrunkBase(t, x);
      var blocks, top := TrunkBlocks(x, base, n, layer), base - n * SIZE;
      (forall b :: b in blocks ==>
         b.tag == TRUNK_TAG && b.layer == layer && b.x == x && OnGrid(b.y) &&
         top < b.y < ColumnTop(t, x)) &&
      blocks[n - 1].y == top + SIZE &&
      blocks[0].y + SIZE == ColumnTop(t, x)
  {
    var n, base := NumTrunkBlocks(draw), TrunkBase(t, x);
    var blocks := TrunkBlocks(x, base, n, layer);
    forall b | b in blocks
      ensures OnGrid(b.y)
    {
      var i :| 0 <= i < n && blocks[i] == b;
      assert b.y == (base / SIZE - i) * SIZE;
    }
  }
}
