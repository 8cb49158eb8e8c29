/**
 * The engine's object collection as the infinite-world simulation uses it:
 * every object is a record of its tag, its layer and its top-left corner.
 */
module PepseWorld {

  /** danogl's layer numbers; only their distinctness matters to the model. */
  const BACKGROUND: int := -200
  const STATIC_OBJECTS: int := -100
  const DEFAULT: int := 0

  /** The layers PepseGameManager assigns (PepseGameManager.java lines 36-44). */
  const TERRAIN_LAYER: int := STATIC_OBJECTS
  const TRUNK_LAYER: int := STATIC_OBJECTS + 1
  const LEAF_LAYER: int := STATIC_OBJECTS + 2
  const AVATAR_LAYER: int := DEFAULT

  /** The tags that mark terrain, trunk and leaf objects. */
  const GROUND_TAG: string := "ground"
  const TRUNK_TAG: string := "trunk"
  const LEAF_TAG: string := "leaf"

  /** One game object: tag, layer and top-left corner. */
  datatype Obj = Obj(tag: string, layer: int, x: int, y: int)

  /** GameObjectCollection: the objects in insertion order. */
  class ObjectCollection {
    var objects: seq<Obj>

    constructor ()
      ensures objects == []
    {
      objects := [];
    }

    /** addGameObject(object, layer): the object is appended. */
    method Add(o: Obj)
      modifies this
      ensures objects == old(objects) + [o]
    {
      objects := objects + [o];
    }
  }
}
