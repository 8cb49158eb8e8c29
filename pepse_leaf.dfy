/**
 * The life cycle of one leaf (pepse/world/trees/LeafBlock.java): it sways on
 * the tree, falls off after its life time, fades out on the ground and comes
 * back to its place on the tree after its death time, forever.
 *
 * The engine's scheduled tasks and transitions are kept as data: a scheduled
 * task is a record of its delay and of the leaf method it will call, and a
 * transition is a flag saying whether the component is attached.
 */
module PepseLeaf {
  import opened PepseBlock
  import opened PepseWorld
  import opened PepseTerrain

  const MAX_LIFE_TIME: real := 800.0
  const MAX_DEATH_TIME: real := 50.0
  const MAX_START_BEHAVIOR_TIME: real := 3.0
  const FADEOUT_TIME: real := 20.0
  const FALL_VELOCITY_Y: real := 50.0
  const INITIAL_OPAQUENESS: real := 1.0

  /** The leaf methods a scheduled task or a finished fade-out calls back. */
  datatype LeafAction = StartSwaying | FallOff | Reset

  /** A task scheduled on the leaf: after `delay` seconds, call `action`. */
  datatype Scheduled = Scheduled(delay: real, action: LeafAction)

  /** random.nextFloat() * max: a draw in [0, 1) scaled into [0, max). */
  function ScaledDraw(coin: real, max: real): (r: real)
    requires max > 0.0
    ensures 0.0 <= coin < 1.0 ==> 0.0 <= r < max
    ensures coin == 0.0 ==> r == 0.0
  {
    coin * max
  }

  class Leaf {
    const terrain: Terrain
    const onTreeX: int
    const onTreeY: int
    const lifeTime: real
    const deathTime: real
    const startBehaviorTime: real
    var x: int
    var y: int
    var vx: real
    var vy: real
    var opacity: real
    var isOffTree: bool
    var angleTransition: bool
    var widthTransition: bool
    var horizontalTransition: bool
    /** The fade-out in progress, if any; its end schedules the reset. */
    var fadingOut: bool
    /** Every task scheduled so far, in scheduling order. */
    var tasks: seq<Scheduled>

    /**
     * The constructor: remembers the position on the tree, draws the three
     * times in the order life, death, start of swaying, and starts the
     * on-tree behaviour.
     */
    constructor (terrain: Terrain, x: int, y: int, lifeCoin: real, deathCoin: real, startCoin: real)
      ensures this.terrain == terrain
      ensures onTreeX == x && onTreeY == y && this.x == x && this.y == y
      ensures lifeTime == ScaledDraw(lifeCoin, MAX_LIFE_TIME)
      ensures deathTime == ScaledDraw(deathCoin, MAX_DEATH_TIME)
      ensures startBehaviorTime == ScaledDraw(startCoin, MAX_START_BEHAVIOR_TIME)
      ensures vx == 0.0 && vy == 0.0 && opacity == INITIAL_OPAQUENESS
      ensures !isOffTree && !fadingOut
      ensures !angleTransition && !widthTransition && !horizontalTransition
      ensures tasks == [Scheduled(startBehaviorTime, StartSwaying), Scheduled(lifeTime, FallOff)]
    {
      this.terrain := terrain;
      onTreeX, onTreeY := x, y;
      this.x, this.y := x, y;
      lifeTime := ScaledDraw(lifeCoin, MAX_LIFE_TIME);
      deathTime := ScaledDraw(deathCoin, MAX_DEATH_TIME);
      startBehaviorTime := ScaledDraw(startCoin, MAX_START_BEHAVIOR_TIME);
      vx, vy := 0.0, 0.0;
      opacity := INITIAL_OPAQUENESS;
      angleTransition, widthTransition, horizontalTransition := false, false, false;
      fadingOut := false;
      tasks := [];
      new;
      CreateOnTreeBehavior();
    }

    /**
     * LeafBlock.shouldCollideWith: an off-tree, moving leaf collides with the
     * ground blocks of the first two layers and with nothing else.
     */
    predicate ShouldCollideWith(other: Obj)
      reads this
    {
      isOffTree && !(vx == 0.0 && vy == 0.0) &&
      other.tag == GROUND_TAG && IsBlockInFirstTwoLayers(terrain, other)
    }

    /** LeafBlock.onCollisionEnter: the swaying, resizing and swinging stop. */
    method OnCollisionEnter(other: Obj)
      modifies this
      ensures !angleTransition && !widthTransition && !horizontalTransition
      ensures x == old(x) && y == old(y) && vx == old(vx) && vy == old(vy)
      ensures isOffTree == old(isOffTree) && tasks == old(tasks)
      ensures opacity == old(opacity) && fadingOut == old(fadingOut)
    {
      widthTransition := false;
      angleTransition := false;
      horizontalTransition := false;
    }

    /** LeafBlock.onCollisionStay: the leaf stops, so it collides with nothing any more. */
    method OnCollisionStay(other: Obj)
      modifies this
      ensures vx == 0.0 && vy == 0.0
      ensures forall o :: !ShouldCollideWith(o)
      ensures x == old(x) && y == old(y) && isOffTree == old(isOffTree) && tasks == old(tasks)
      ensures opacity == old(opacity) && fadingOut == old(fadingOut)
      ensures angleTransition == old(angleTransition) && widthTransition == old(widthTransition)
      ensures horizontalTransition == old(horizontalTransition)
    {
      vx, vy := 0.0, 0.0;
    }

    /** createOnTreeBehavior: back on the tree, with the swaying and the fall scheduled. */
    method CreateOnTreeBehavior()
      modifies this
      ensures !isOffTree
      ensures tasks == old(tasks) + [Scheduled(startBehaviorTime, StartSwaying), Scheduled(lifeTime, FallOff)]
      ensures x == old(x) && y == old(y) && vx == old(vx) && vy == old(vy) && opacity == old(opacity)
      ensures fadingOut == old(fadingOut)
      ensures angleTransition == old(angleTransition) && widthTransition == old(widthTransition)
      ensures horizontalTransition == old(horizontalTransition)
    {
      isOffTree := false;
      tasks := tasks + [Scheduled(startBehaviorTime, StartSwaying)];
      tasks := tasks + [Scheduled(lifeTime, FallOff)];
    }

    /** createOnTreeBehaviorTransitions: the angle and width transitions start. */
    method CreateOnTreeBehaviorTransitions()
      modifies this
      ensures angleTransition && widthTransition
      ensures horizontalTransition == old(horizontalTransition)
      ensures x == old(x) && y == old(y) && vx == old(vx) && vy == old(vy) && opacity == old(opacity)
      ensures isOffTree == old(isOffTree) && tasks == old(tasks) && fadingOut == old(fadingOut)
    {
      angleTransition := true;
      widthTransition := true;
    }

    /**
     * createOffTreeBehavior: off the tree, fading out, falling at 50 and
     * swinging sideways; the reset follows the fade-out (FadeOutFinished).
     */
    method CreateOffTreeBehavior()
      modifies this
      ensures isOffTree && fadingOut && vy == FALL_VELOCITY_Y && horizontalTransition
      ensures forall o :: ShouldCollideWith(o) <==> o.tag == GROUND_TAG && IsBlockInFirstTwoLayers(terrain, o)
      ensures x == old(x) && y == old(y) && vx == old(vx) && opacity == old(opacity) && tasks == old(tasks)
      ensures angleTransition == old(angleTransition) && widthTransition == old(widthTransition)
    {
      isOffTree := true;
      fadingOut := true;
      vy := FALL_VELOCITY_Y;
      horizontalTransition := true;
    }

    /** The end of the FADEOUT_TIME fade-out: the reset is scheduled deathTime later. */
    method FadeOutFinished()
      modifies this
      ensures !fadingOut && opacity == 0.0
      ensures tasks == old(tasks) + [Scheduled(deathTime, Reset)]
      ensures x == old(x) && y == old(y) && vx == old(vx) && vy == old(vy) && isOffTree == old(isOffTree)
      ensures angleTransition == old(angleTransition) && widthTransition == old(widthTransition)
      ensures horizontalTransition == old(horizontalTransition)
    {
      fadingOut := false;
      opacity := 0.0;
      tasks := tasks + [Scheduled(deathTime, Reset)];
    }

    /**
     * resetLeaf: back at exactly the position on the tree, fully opaque, with
     * the same life and start times scheduled again.
     */
    method ResetLeaf()
      modifies this
      ensures x == onTreeX && y == onTreeY && opacity == INITIAL_OPAQUENESS && !isOffTree
      ensures tasks == old(tasks) + [Scheduled(startBehaviorTime, StartSwaying), Scheduled(lifeTime, FallOff)]
      ensures vx == old(vx) && vy == old(vy) && fadingOut == old(fadingOut)
      ensures angleTransition == old(angleTransition) && widthTransition == old(widthTransition)
      ensures horizontalTransition == old(horizontalTransition)
    {
      x, y := onTreeX, onTreeY;
      opacity := INITIAL_OPAQUENESS;
      CreateOnTreeBehavior();
    }
  }

  /**
   * An off-tree moving leaf collides with a block of a terrain column exactly
   * when it is one of the column's top two blocks, or the third when the
   * ground height is not itself on the grid.
   */
  lemma CollidesWithTopOfColumn(leaf: Leaf, x: int, i: int)
    requires 0 <= i < TERRAIN_DEPTH
    requires leaf.isOffTree && leaf.vy != 0.0
    ensures leaf.ShouldCollideWith(Column(leaf.terrain, x)[i]) <==>
      i < 2 || (i == 2 && (ColumnTop(leaf.terrain, x) as real) < GroundHeightAt(leaf.terrain, x as real))
  {
    FirstTwoLayersOfColumn(leaf.terrain, x, i);
  }

  /** A leaf on the tree collides with nothing. */
  lemma OnTreeCollidesWithNothing(leaf: Leaf, o: Obj)
    requires !leaf.isOffTree
    ensures !leaf.ShouldCollideWith(o)
  {
  }
}
