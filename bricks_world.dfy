/**
 * The engine objects the Bricker game works with: danogl's Counter, a game
 * object's tag, corner, size and velocity, the layered object collection
 * and the game manager's camera slot. Rendering, physics and collision
 * detection are not modelled; Java's float is modelled as a real.
 */
module BricksWorld {
  import opened Util

  /** danogl's layer numbers; only their distinctness matters to the model. */
  const BACKGROUND: int := -200
  const STATIC_OBJECTS: int := -100
  const DEFAULT: int := 0

  /** The tags the game looks objects up by. */
  const MAIN_BALL_TAG: string := "main ball"
  const PADDLE_TAG: string := "paddle"

  /** danogl's Counter: a shared, mutable integer. */
  class Counter {
    var value: int

    constructor (initial: int)
      ensures value == initial
    {
      value := initial;
    }

    method Increment()
      modifies this
      ensures value == old(value) + 1
    {
      value := value + 1;
    }

    method Decrement()
      modifies this
      ensures value == old(value) - 1
    {
      value := value - 1;
    }
  }

  /** A game object: tag, top-left corner, dimensions and velocity. */
  class GameObject {
    var tag: string
    var x: real
    var y: real
    var width: real
    var height: real
    var vx: real
    var vy: real

    /** A new object has no tag and does not move. */
    constructor (x: real, y: real, width: real, height: real)
      ensures this.x == x && this.y == y && this.width == width && this.height == height
      ensures tag == "" && vx == 0.0 && vy == 0.0
    {
      this.x, this.y, this.width, this.height := x, y, width, height;
      tag, vx, vy := "", 0.0, 0.0;
    }

    function CenterX(): real
      reads this
    {
      x + width / 2.0
    }

    function CenterY(): real
      reads this
    {
      y + height / 2.0
    }

    /** setCenter: the corner moves so that the centre is (cx, cy); the size stays. */
    method SetCenter(cx: real, cy: real)
      modifies this
      ensures CenterX() == cx && CenterY() == cy
      ensures tag == old(tag) && width == old(width) && height == old(height)
      ensures vx == old(vx) && vy == old(vy)
    {
      x, y := cx - width / 2.0, cy - height / 2.0;
    }

    method SetVelocity(vx: real, vy: real)
      modifies this
      ensures this.vx == vx && this.vy == vy
      ensures tag == old(tag) && x == old(x) && y == old(y) && width == old(width) && height == old(height)
    {
      this.vx, this.vy := vx, vy;
    }

    method SetTag(tag: string)
      modifies this
      ensures this.tag == tag
      ensures x == old(x) && y == old(y) && width == old(width) && height == old(height)
      ensures vx == old(vx) && vy == old(vy)
    {
      this.tag := tag;
    }
  }

  /** An object in a layer of the collection. */
  datatype Entry = Entry(obj: GameObject, layer: int)

  /** s with its first occurrence of e taken out (s itself when e is not there). */
  function RemoveFirst(s: seq<Entry>, e: Entry): (r: seq<Entry>)
    ensures e in s ==> |r| == |s| - 1
    ensures e !in s ==> r == s
    ensures multiset(r) == multiset(s) - multiset{e}
  {
    if s == [] then []
    else
      assert s == [s[0]] + s[1..];
      if s[0] == e then s[1..] else [s[0]] + RemoveFirst(s[1..], e)
  }

  /** Only e loses an occurrence: every other entry keeps its count. */
  lemma RemoveFirstOthers(s: seq<Entry>, e: Entry, d: Entry)
    requires d != e
    ensures multiset(RemoveFirst(s, e))[d] == multiset(s)[d]
    ensures d in RemoveFirst(s, e) <==> d in s
  {
  }

  /** An entry held once is gone after its removal. */
  lemma RemoveFirstGone(s: seq<Entry>, e: Entry)
    requires multiset(s)[e] <= 1
    ensures e !in RemoveFirst(s, e)
  {
    assert multiset(RemoveFirst(s, e))[e] == 0;
  }

  /** Removing from a sequence and then appending is appending and then removing, when the appended part lacks e. */
  lemma {:induction false} RemoveFirstAppend(s: seq<Entry>, t: seq<Entry>, e: Entry)
    requires e !in t
    ensures RemoveFirst(s + t, e) == RemoveFirst(s, e) + t
    decreases |s|
  {
    if s == [] {
      assert s + t == t;
    } else {
      assert (s + t)[0] == s[0] && (s + t)[1..] == s[1..] + t;
      if s[0] != e {
        RemoveFirstAppend(s[1..], t, e);
        assert RemoveFirst(s + t, e) == [s[0]] + RemoveFirst(s[1..] + t, e);
      }
    }
  }

  /** The number of entries in layer `layer`. */
  function CountLayer(s: seq<Entry>, layer: int): (n: nat)
    ensures n <= |s|
  {
    if s == [] then 0 else (if s[0].layer == layer then 1 else 0) + CountLayer(s[1..], layer)
  }

  /** Entries appended in other layers do not change a layer's count. */
  lemma {:induction false} CountLayerAppend(s: seq<Entry>, t: seq<Entry>, layer: int)
    ensures CountLayer(s + t, layer) == CountLayer(s, layer) + CountLayer(t, layer)
    decreases |s|
  {
    if s == [] {
      assert s + t == t;
    } else {
      assert (s + t)[1..] == s[1..] + t;
      CountLayerAppend(s[1..], t, layer);
    }
  }

  /** Removing an entry of a layer lowers that layer's count by one when it was there. */
  lemma {:induction false} CountLayerRemove(s: seq<Entry>, e: Entry)
    ensures CountLayer(RemoveFirst(s, e), e.layer) == CountLayer(s, e.layer) - (if e in s then 1 else 0)
    decreases |s|
  {
    if s != [] && s[0] != e {
      CountLayerRemove(s[1..], e);
      assert RemoveFirst(s, e)[1..] == RemoveFirst(s[1..], e);
    }
  }

  /** GameObjectCollection: the objects of the game, each in a layer, in insertion order. */
  class GameObjectCollection {
    var entries: seq<Entry>

    constructor ()
      ensures entries == []
    {
      entries := [];
    }

    /** addGameObject(obj, layer): the object is appended to the layer. */
    method Add(obj: GameObject, layer: int)
      modifies this
      ensures entries == old(entries) + [Entry(obj, layer)]
    {
      entries := entries + [Entry(obj, layer)];
    }

    /**
     * removeGameObject(obj, layer): true exactly when the object was in
     * that layer, and then it is taken out of it; nothing else changes.
     */
    method Remove(obj: GameObject, layer: int) returns (removed: bool)
      modifies this
      ensures removed <==> Entry(obj, layer) in old(entries)
      ensures entries == RemoveFirst(old(entries), Entry(obj, layer))
    {
      removed := Entry(obj, layer) in entries;
      entries := RemoveFirst(entries, Entry(obj, layer));
    }
  }

  /** The game manager's camera: the object it follows, if one is set. */
  class GameCamera {
    var target: Option<GameObject>

    constructor ()
      ensures target == None
    {
      target := None;
    }
  }
}
