/**
 * The sliding window of the infinite world (pepse/PepseGameManager.java):
 * content exists between startWorld and endWorld; when the avatar comes
 * close to one border, content is created beyond it, content beyond the
 * other side is evicted, and both borders move by WORLD_BORDER_DELTA.
 */
module PepseManager {
  import opened PepseBlock
  import opened PepseWorld
  import opened PepseTerrain
  import opened PepseTree
  import Oracle

  const WORLD_BORDER_OFFSET: int := 400
  const WORLD_BORDER_DELTA: int := 200

  /**
   * removeObject: ground, trunk and leaf objects are removed from their own
   * layer; a removal from a layer that does not hold the object fails, and
   * objects with any other tag are never touched.
   */
  predicate Removable(o: Obj)
  {
    (o.tag == GROUND_TAG && o.layer == TERRAIN_LAYER) ||
    (o.tag == TRUNK_TAG && o.layer == TRUNK_LAYER) ||
    (o.tag == LEAF_TAG && o.layer == LEAF_LAYER)
  }

  /** The side test of removeObjectsFromSide on an object's top-left x. */
  predicate OnSide(o: Obj, coordinate: int, fromLeft: bool)
  {
    if fromLeft then o.x < coordinate else o.x > coordinate
  }

  /** The collection after removeObjectsFromSide: the evicted objects are gone, the rest keep their order. */
  function Evict(objs: seq<Obj>, coordinate: int, fromLeft: bool): seq<Obj>
  {
    if objs == [] then []
    else
      var last := objs[|objs| - 1];
      Evict(objs[..|objs| - 1], coordinate, fromLeft) +
      (if OnSide(last, coordinate, fromLeft) && Removable(last) then [] else [last])
  }

  /** An object survives eviction exactly when it is not a removable object beyond the coordinate. */
  lemma {:induction false} EvictContents(objs: seq<Obj>, coordinate: int, fromLeft: bool, o: Obj)
    ensures o in Evict(objs, coordinate, fromLeft) <==>
      o in objs && !(OnSide(o, coordinate, fromLeft) && Removable(o))
  {
    if objs != [] {
      var init := objs[..|objs| - 1];
      EvictContents(init, coordinate, fromLeft, o);
      assert objs == init + [objs[|objs| - 1]];
    }
  }

  /** Evicting twice at the same coordinate evicts nothing more, and eviction never adds objects. */
  lemma {:induction false} EvictIdempotent(objs: seq<Obj>, coordinate: int, fromLeft: bool)
    ensures Evict(Evict(objs, coordinate, fromLeft), coordinate, fromLeft) == Evict(objs, coordinate, fromLeft)
    ensures |Evict(objs, coordinate, fromLeft)| <= |objs|
  {
    if objs != [] {
      var init := objs[..|objs| - 1];
      var last := objs[|objs| - 1];
      EvictIdempotent(init, coordinate, fromLeft);
      var e := Evict(init, coordinate, fromLeft);
      assert objs[..|objs| - 1] == init;
      if !(OnSide(last, coordinate, fromLeft) && Removable(last)) {
        assert (e + [last])[..|e + [last]| - 1] == e;
      } else {
        assert e + [] == e;
      }
    }
  }

  /** The candidate x of the avatar for one draw: the rounded draw in [lower, upper). */
  function AvatarLowerBound(windowWidth: int): int
  {
    (0.25 * windowWidth as real).Floor
  }

  function AvatarUpperBound(windowWidth: int): int
  {
    (0.75 * windowWidth as real).Floor
  }

  function AvatarCandidate(windowWidth: int, draw: nat): (x: int)
    requires AvatarLowerBound(windowWidth) < AvatarUpperBound(windowWidth)
    ensures OnGrid(x)
    ensures AvatarLowerBound(windowWidth) - SIZE < x < AvatarUpperBound(windowWidth)
  {
    var lower, upper := AvatarLowerBound(windowWidth), AvatarUpperBound(windowWidth);
    RoundInt(Oracle.NextInt(draw, upper - lower) + lower)
  }

  class World {
    const coll: ObjectCollection
    const windowWidth: int
    const tree: Tree
    var startWorld: int
    var endWorld: int

    /** The window is WORLD_BORDER_OFFSET wider than the screen on each side, and the parts agree. */
    predicate Valid()
      reads this, tree
    {
      endWorld - startWorld == windowWidth + 2 * WORLD_BORDER_OFFSET &&
      tree.coll == coll &&
      tree.trunkLayer == TRUNK_LAYER && tree.leafLayer == LEAF_LAYER &&
      tree.terrain.groundLayer == TERRAIN_LAYER && !tree.isFirstCreation
    }

    /** The content created for a range: its terrain columns, then its trees. */
    function CreatedInRange(minX: int, maxX: int): seq<Obj>
      reads this
    {
      GroundInRange(tree.terrain, minX, maxX) +
      ForestFrom(tree.terrain, tree.draws, TRUNK_LAYER, LEAF_LAYER, RoundInt(minX), maxX)
    }

    /**
     * initializeGame and createObjects: the window [-400, w + 400], its
     * terrain and its trees, which are the first (and only recorded) creation.
     */
    constructor (coll: ObjectCollection, windowWidth: int, windowHeight: real, noise: real -> real, draws: TreeDraws)
      modifies coll
      ensures Valid() && fresh(tree)
      ensures this.coll == coll && this.windowWidth == windowWidth && tree.draws == draws
      ensures tree.terrain.groundHeightAtX0 * 3.0 == windowHeight * 2.0
      ensures startWorld == -WORLD_BORDER_OFFSET && endWorld == windowWidth + WORLD_BORDER_OFFSET
      ensures coll.objects == old(coll.objects) + CreatedInRange(startWorld, endWorld)
      ensures tree.allXWithTree == Elements(PlantedFrom(draws, RoundInt(startWorld), endWorld))
    {
      this.coll := coll;
      this.windowWidth := windowWidth;
      var t := NewTerrain(windowHeight, noise, TERRAIN_LAYER);
      var tr := new Tree(coll, t, TRUNK_LAYER, LEAF_LAYER, draws);
      tree := tr;
      startWorld := -WORLD_BORDER_OFFSET;
      endWorld := windowWidth + WORLD_BORDER_OFFSET;
      new;
      PepseTerrain.CreateInRange(tree.terrain, coll, startWorld, endWorld);
      tree.CreateInRange(startWorld, endWorld);
    }

    /**
     * PepseGameManager.update: at most one expansion per frame, towards the
     * border the avatar's centre is within half a buffer of.
     */
    method Update(avatarX: real)
      requires Valid()
      modifies this, coll, tree
      ensures Valid()
      ensures tree.allXWithTree == old(tree.allXWithTree)
      ensures var buffer := (windowWidth + WORLD_BORDER_OFFSET) as real / 2.0;
        if avatarX - old(startWorld) as real < buffer then
          startWorld == old(startWorld) - WORLD_BORDER_DELTA &&
          coll.objects == Evict(old(coll.objects), old(endWorld) - WORLD_BORDER_DELTA, false) +
            CreatedInRange(old(startWorld) - WORLD_BORDER_DELTA + SIZE, old(startWorld))
        else if old(endWorld) as real - avatarX < buffer then
          startWorld == old(startWorld) + WORLD_BORDER_DELTA &&
          coll.objects == Evict(old(coll.objects), old(startWorld) - WORLD_BORDER_DELTA, true) +
            CreatedInRange(old(endWorld) + SIZE, old(endWorld) + WORLD_BORDER_DELTA)
        else
          startWorld == old(startWorld) && coll.objects == old(coll.objects)
    {
      var bufferLength := (windowWidth + WORLD_BORDER_OFFSET) as real / 2.0;
      if avatarX - startWorld as real < bufferLength {
        ExpandFromLeft();
      } else if endWorld as real - avatarX < bufferLength {
        ExpandFromRight();
      }
    }

    /** expandFromLeft: evict beyond end - 200, create [start - 170, start], shift both borders left. */
    method ExpandFromLeft()
      requires Valid()
      modifies this, coll, tree
      ensures Valid()
      ensures startWorld == old(startWorld) - WORLD_BORDER_DELTA && endWorld == old(endWorld) - WORLD_BORDER_DELTA
      ensures coll.objects == Evict(old(coll.objects), old(endWorld) - WORLD_BORDER_DELTA, false) +
        CreatedInRange(old(startWorld) - WORLD_BORDER_DELTA + SIZE, old(startWorld))
      ensures tree.allXWithTree == old(tree.allXWithTree)
    {
      RemoveObjectsFromSide(endWorld - WORLD_BORDER_DELTA, false);
      CreateNewObjectsInRange(startWorld - WORLD_BORDER_DELTA + SIZE, startWorld);
      startWorld := startWorld - WORLD_BORDER_DELTA;
      endWorld := endWorld - WORLD_BORDER_DELTA;
    }

    /** expandFromRight: evict before start - 200, create [end + 30, end + 200], shift both borders right. */
    method ExpandFromRight()
      requires Valid()
      modifies this, coll, tree
      ensures Valid()
      ensures startWorld == old(startWorld) + WORLD_BORDER_DELTA && endWorld == old(endWorld) + WORLD_BORDER_DELTA
      ensures coll.objects == Evict(old(coll.objects), old(startWorld) - WORLD_BORDER_DELTA, true) +
        CreatedInRange(old(endWorld) + SIZE, old(endWorld) + WORLD_BORDER_DELTA)
      ensures tree.allXWithTree == old(tree.allXWithTree)
    {
      RemoveObjectsFromSide(startWorld - WORLD_BORDER_DELTA, true);
      CreateNewObjectsInRange(endWorld + SIZE, endWorld + WORLD_BORDER_DELTA);
      startWorld := startWorld + WORLD_BORDER_DELTA;
      endWorld := endWorld + WORLD_BORDER_DELTA;
    }

    /**
     * removeObjectsFromSide: every object beyond the coordinate on the given
     * side is passed to removeObject; the engine applies the removals after
     * the scan, so the scan sees the whole collection.
     */
    method RemoveObjectsFromSide(coordinate: int, fromLeft: bool)
      modifies coll
      ensures coll.objects == Evict(old(coll.objects), coordinate, fromLeft)
    {
      var objs := coll.objects;
      var kept: seq<Obj> := [];
      var i := 0;
      while i < |objs|
        invariant 0 <= i <= |objs|
        invariant kept == Evict(objs[..i], coordinate, fromLeft)
      {
        var o := objs[i];
        assert objs[..i + 1][..i] == objs[..i];
        if fromLeft && o.x < coordinate {
          kept := RemoveObject(kept, o);
        } else if !fromLeft && o.x > coordinate {
          kept := RemoveObject(kept, o);
        } else {
          kept := kept + [o];
        }
        i := i + 1;
      }
      assert objs[..|objs|] == objs;
      coll.objects := kept;
    }

    /**
     * The world's content is its terrain and its trees: creating a range
     * adds exactly CreatedInRange, and the trees record nothing new.
     */
    method CreateNewObjectsInRange(startRange: int, endRange: int)
      requires Valid()
      modifies coll, tree
      ensures Valid()
      ensures coll.objects == old(coll.objects) + CreatedInRange(startRange, endRange)
      ensures tree.allXWithTree == old(tree.allXWithTree)
    {
      PepseTerrain.CreateInRange(tree.terrain, coll, startRange, endRange);
      tree.CreateInRange(startRange, endRange);
    }

    /**
     * getAvatarTopLeftCorner: draws candidates until one is not a trunk
     * column of the first creation; the loop needs such a draw to end.
     */
    method GetAvatarTopLeftCorner(draws: Oracle.Stream) returns (x: int, y: real, used: nat)
      requires AvatarLowerBound(windowWidth) < AvatarUpperBound(windowWidth)
      requires exists k: nat :: !tree.IsTreeInX(AvatarCandidate(windowWidth, draws(k)))
      ensures x == AvatarCandidate(windowWidth, draws(used)) && !tree.IsTreeInX(x)
      ensures forall k: nat :: k < used ==> tree.IsTreeInX(AvatarCandidate(windowWidth, draws(k)))
      ensures y == GroundHeightAt(tree.terrain, x as real)
      ensures OnGrid(x) && AvatarLowerBound(windowWidth) - SIZE < x < AvatarUpperBound(windowWidth)
    {
      ghost var target: nat :| !tree.IsTreeInX(AvatarCandidate(windowWidth, draws(target)));
      var k := 0;
      var lowerBound := (0.25 * windowWidth as real).Floor;
      var upperBound := (0.75 * windowWidth as real).Floor;
      x := RoundInt(Oracle.NextInt(draws(k), upperBound - lowerBound) + lowerBound);
      while tree.IsTreeInX(x)
        invariant k <= target
        invariant x == AvatarCandidate(windowWidth, draws(k))
        invariant forall j: nat :: j < k ==> tree.IsTreeInX(AvatarCandidate(windowWidth, draws(j)))
        decreases target - k
      {
        k := k + 1;
        x := RoundInt(Oracle.NextInt(draws(k), upperBound - lowerBound) + lowerBound);
      }
      used := k;
      y := GroundHeightAt(tree.terrain, x as real);
    }
  }

  /** removeObject on the collection being built: a removable object is dropped, any other kept. */
  function RemoveObject(kept: seq<Obj>, o: Obj): (r: seq<Obj>)
    ensures r == if Removable(o) then kept else kept + [o]
  {
    if o.tag == GROUND_TAG then (if o.layer == TERRAIN_LAYER then kept else kept + [o])
    else if o.tag == TRUNK_TAG then (if o.layer == TRUNK_LAYER then kept else kept + [o])
    else if o.tag == LEAF_TAG then (if o.layer == LEAF_LAYER then kept else kept + [o])
    else kept + [o]
  }

  /** Every expansion keeps the width of the window: end - start is w + 800 at all times. */
  lemma WindowWidthKept(w: int, start: int, end: int)
    requires end - start == w + 2 * WORLD_BORDER_OFFSET
    ensures (end - WORLD_BORDER_DELTA) - (start - WORLD_BORDER_DELTA) == w + 2 * WORLD_BORDER_OFFSET
    ensures (end + WORLD_BORDER_DELTA) - (start + WORLD_BORDER_DELTA) == w + 2 * WORLD_BORDER_OFFSET
  {
  }

  /**
   * The first left expansion from the initial window creates column -420
   * again: the initial range starts at the rounded -400, which is -420, and
   * the new range [-570, -400] contains it too, while the eviction on the
   * right side keeps the first copy.
   */
  lemma FirstLeftExpansionRecreatesColumn(t: Terrain, w: int)
    requires w >= 0
    ensures Column(t, -420)[0] in GroundInRange(t, -WORLD_BORDER_OFFSET, w + WORLD_BORDER_OFFSET)
    ensures Column(t, -420)[0] in GroundInRange(t, -WORLD_BORDER_OFFSET - WORLD_BORDER_DELTA + SIZE, -WORLD_BORDER_OFFSET)
    ensures !OnSide(Column(t, -420)[0], w + WORLD_BORDER_OFFSET - WORLD_BORDER_DELTA, false)
  {
    RoundedNegativeExamples();
    var b := Column(t, -420)[0];
    ColumnsFromContents(t, -420, w + WORLD_BORDER_OFFSET, b);
    RoundedUnique(-570.0, -570);
    ColumnsFromContents(t, -570, -WORLD_BORDER_OFFSET, b);
  }
}
