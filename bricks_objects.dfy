/**
 * The Bricker game's own game objects: the paddle and its mock double, the
 * ball, the falling status that resizes paddles and the row of life
 * widgets. Each Java subclass of GameObject is a class here that holds its
 * engine object as `body` next to the state the subclass adds.
 */
module BricksObjects {
  import opened Util
  import opened BricksWorld

  // ---------------------------------------------------------------- Paddle

  const PADDLE_VELOCITY: real := 300.0

  /**
   * The paddle's horizontal velocity: LEFT adds -1 and RIGHT adds +1 to the
   * direction, which is then scaled by 300.
   */
  function MovementVelocity(leftPressed: bool, rightPressed: bool): (v: real)
    ensures leftPressed == rightPressed ==> v == 0.0
    ensures leftPressed && !rightPressed ==> v == -PADDLE_VELOCITY
    ensures rightPressed && !leftPressed ==> v == PADDLE_VELOCITY
  {
    ((if leftPressed then -1.0 else 0.0) + (if rightPressed then 1.0 else 0.0)) * PADDLE_VELOCITY
  }

  /** The corner's x after updatePositionWithinBorders: pulled back to the nearer border when outside. */
  function KeepWithin(x: real, leftBorder: real, rightBorder: real): (r: real)
    ensures leftBorder <= rightBorder ==> leftBorder <= r <= rightBorder
    ensures leftBorder <= x <= rightBorder ==> r == x
    ensures r == x || r == leftBorder || r == rightBorder
  {
    if x < leftBorder then leftBorder
    else if x > rightBorder then rightBorder
    else x
  }

  /** Keeping within borders twice is keeping within them once, when the borders are ordered. */
  lemma KeepWithinIdempotent(x: real, leftBorder: real, rightBorder: real)
    requires leftBorder <= rightBorder
    ensures KeepWithin(KeepWithin(x, leftBorder, rightBorder), leftBorder, rightBorder)
            == KeepWithin(x, leftBorder, rightBorder)
  {
    var once := KeepWithin(x, leftBorder, rightBorder);
    assert leftBorder <= once <= rightBorder;
  }

  /** A paddle steered by the arrow keys inside the window's side margins. */
  class Paddle {
    const body: GameObject
    const windowWidth: real
    const minDistanceFromEdge: int

    constructor (x: real, y: real, width: real, height: real, windowWidth: real, minDistanceFromEdge: int)
      ensures body.x == x && body.y == y && body.width == width && body.height == height
      ensures body.tag == "" && body.vx == 0.0 && body.vy == 0.0
      ensures this.windowWidth == windowWidth && this.minDistanceFromEdge == minDistanceFromEdge
      ensures fresh(body)
    {
      body := new GameObject(x, y, width, height);
      this.windowWidth := windowWidth;
      this.minDistanceFromEdge := minDistanceFromEdge;
    }

    function RightBorder(): real
      reads body
    {
      windowWidth - minDistanceFromEdge as real - body.width
    }

    /**
     * update after the engine has moved the paddle: the velocity follows the
     * keys and the corner is pulled back inside [minDistanceFromEdge,
     * windowWidth - minDistanceFromEdge - width]; y and the size stay.
     */
    method Update(leftPressed: bool, rightPressed: bool)
      modifies body
      ensures body.vx == MovementVelocity(leftPressed, rightPressed) && body.vy == 0.0
      ensures body.x == KeepWithin(old(body.x), minDistanceFromEdge as real, RightBorder())
      ensures body.y == old(body.y) && body.width == old(body.width) && body.height == old(body.height)
      ensures body.tag == old(body.tag)
    {
      body.SetVelocity(MovementVelocity(leftPressed, rightPressed), 0.0);
      var leftBorderX := minDistanceFromEdge as real;
      var rightBorderX := windowWidth - minDistanceFromEdge as real - body.width;
      if body.x < leftBorderX {
        body.x := leftBorderX;
      } else if body.x > rightBorderX {
        body.x := rightBorderX;
      }
    }
  }

  // ------------------------------------------------------------ MockPaddle

  /** MockPaddle's static isInstantiated flag, shared by every strategy. */
  class MockPaddleFlag {
    var isInstantiated: bool

    constructor ()
      ensures !isInstantiated
    {
      isInstantiated := false;
    }
  }

  /** A second paddle that leaves the game after a set number of collisions. */
  class MockPaddle {
    const paddle: Paddle
    const collection: GameObjectCollection
    const numCollisionsToDisappear: int
    const flag: MockPaddleFlag
    var collisionCounter: int

    /** Creating a mock paddle raises the shared flag and starts its count at 0. */
    constructor (x: real, y: real, width: real, height: real, windowWidth: real,
                 collection: GameObjectCollection, minDistanceFromEdge: int,
                 numCollisionsToDisappear: int, flag: MockPaddleFlag)
      modifies flag
      ensures flag.isInstantiated && collisionCounter == 0
      ensures paddle.body.x == x && paddle.body.y == y
      ensures paddle.body.width == width && paddle.body.height == height
      ensures paddle.body.tag == "" && paddle.windowWidth == windowWidth
      ensures paddle.minDistanceFromEdge == minDistanceFromEdge
      ensures this.collection == collection && this.flag == flag
      ensures this.numCollisionsToDisappear == numCollisionsToDisappear
      ensures fresh(paddle) && fresh(paddle.body)
    {
      paddle := new Paddle(x, y, width, height, windowWidth, minDistanceFromEdge);
      this.collection := collection;
      this.numCollisionsToDisappear := numCollisionsToDisappear;
      this.flag := flag;
      collisionCounter := 0;
      new;
      flag.isInstantiated := true;
    }

    /**
     * onCollisionEnter: one more collision; on exactly the
     * numCollisionsToDisappear-th the paddle leaves the default layer and the
     * flag drops, otherwise neither changes.
     */
    method OnCollisionEnter()
      modifies this, collection, flag
      ensures collisionCounter == old(collisionCounter) + 1
      ensures collisionCounter == numCollisionsToDisappear ==>
                collection.entries == RemoveFirst(old(collection.entries), Entry(paddle.body, DEFAULT))
                && !flag.isInstantiated
      ensures collisionCounter != numCollisionsToDisappear ==>
                collection.entries == old(collection.entries) && flag.isInstantiated == old(flag.isInstantiated)
    {
      collisionCounter := collisionCounter + 1;
      if collisionCounter == numCollisionsToDisappear {
        var _ := collection.Remove(paddle.body, DEFAULT);
        flag.isInstantiated := false;
      }
    }
  }

  // ------------------------------------------------------------------ Ball

  datatype Vec = Vec(x: real, y: real)

  function Dot(a: Vec, b: Vec): real
  {
    a.x * b.x + a.y * b.y
  }

  /** Vector2.flipped(normal): the velocity mirrored in the surface with that normal. */
  function Flipped(v: Vec, n: Vec): (r: Vec)
  {
    Vec(v.x - 2.0 * Dot(v, n) * n.x, v.y - 2.0 * Dot(v, n) * n.y)
  }

  /** Against a unit normal the flip reverses the normal component and keeps the speed. */
  lemma FlipReverses(v: Vec, n: Vec)
    requires Dot(n, n) == 1.0
    ensures Dot(Flipped(v, n), n) == -Dot(v, n)
    ensures Dot(Flipped(v, n), Flipped(v, n)) == Dot(v, v)
  {
    var d := Dot(v, n);
    var r := Flipped(v, n);
    calc {
      Dot(r, n);
      (v.x - 2.0 * d * n.x) * n.x + (v.y - 2.0 * d * n.y) * n.y;
      d - 2.0 * d * (n.x * n.x + n.y * n.y);
      -d;
    }
    calc {
      Dot(r, r);
      (v.x - 2.0 * d * n.x) * (v.x - 2.0 * d * n.x) + (v.y - 2.0 * d * n.y) * (v.y - 2.0 * d * n.y);
      Dot(v, v) - 4.0 * d * d + 4.0 * d * d * (n.x * n.x + n.y * n.y);
      Dot(v, v);
    }
  }

  /** Flipping twice in the same unit normal restores the velocity. */
  lemma FlipTwice(v: Vec, n: Vec)
    requires Dot(n, n) == 1.0
    ensures Flipped(Flipped(v, n), n) == v
  {
    FlipReverses(v, n);
    var d := Dot(v, n);
    var r := Flipped(v, n);
    assert Dot(r, n) == -d;
    assert r.x - 2.0 * Dot(r, n) * n.x == v.x;
    assert r.y - 2.0 * Dot(r, n) * n.y == v.y;
  }

  /** A ball bounces off what it hits and counts its collisions. */
  class Ball {
    const body: GameObject
    var collisionCount: int

    constructor (x: real, y: real, width: real, height: real)
      ensures collisionCount == 0
      ensures body.x == x && body.y == y && body.width == width && body.height == height
      ensures body.tag == "" && body.vx == 0.0 && body.vy == 0.0
      ensures fresh(body)
    {
      body := new GameObject(x, y, width, height);
      collisionCount := 0;
    }

    /** onCollisionEnter: the velocity is flipped in the collision normal and the count goes up by one. */
    method OnCollisionEnter(normal: Vec)
      modifies this, body
      ensures collisionCount == old(collisionCount) + 1
      ensures Vec(body.vx, body.vy) == Flipped(Vec(old(body.vx), old(body.vy)), normal)
      ensures body.x == old(body.x) && body.y == old(body.y)
      ensures body.width == old(body.width) && body.height == old(body.height) && body.tag == old(body.tag)
    {
      var v := Flipped(Vec(body.vx, body.vy), normal);
      body.SetVelocity(v.x, v.y);
      collisionCount := collisionCount + 1;
    }
  }

  // --------------------------------------------------------- StatusDefiner

  /**
   * The width a status leaves a paddle with: width * coefficient when that
   * lies within [minWidth, maxWidth], else the width unchanged.
   */
  function ChangedWidth(width: real, coefficient: real, minWidth: int, maxWidth: int): (r: real)
    ensures r == width || minWidth as real <= r <= maxWidth as real
    ensures minWidth as real <= width <= maxWidth as real ==> minWidth as real <= r <= maxWidth as real
    ensures r != width ==> r == width * coefficient
  {
    var newLength := width * coefficient;
    if minWidth as real <= newLength <= maxWidth as real then newLength else width
  }

  /** A 100-wide paddle widened three times in a row is 400 wide: the third doubling would pass 620. */
  lemma ThreeWidenings()
    ensures ChangedWidth(ChangedWidth(ChangedWidth(100.0, 2.0, 20, 620), 2.0, 20, 620), 2.0, 20, 620) == 400.0
  {
    assert ChangedWidth(100.0, 2.0, 20, 620) == 200.0;
    assert ChangedWidth(200.0, 2.0, 20, 620) == 400.0;
  }

  /** A falling status that resizes the first paddle it meets and then disappears. */
  class StatusDefiner {
    const body: GameObject
    const collection: GameObjectCollection
    const collideWithTag: string
    const changeWidthCoefficient: real
    const maxObjectWidth: int
    const minObjectWidth: int

    constructor (width: real, height: real, collection: GameObjectCollection, collideWithTag: string,
                 changeWidthCoefficient: real, maxObjectWidth: int, minObjectWidth: int)
      ensures body.x == 0.0 && body.y == 0.0 && body.width == width && body.height == height
      ensures body.tag == "" && body.vx == 0.0 && body.vy == 0.0
      ensures this.collection == collection && this.collideWithTag == collideWithTag
      ensures this.changeWidthCoefficient == changeWidthCoefficient
      ensures this.maxObjectWidth == maxObjectWidth && this.minObjectWidth == minObjectWidth
      ensures fresh(body)
    {
      body := new GameObject(0.0, 0.0, width, height);
      this.collection := collection;
      this.collideWithTag := collideWithTag;
      this.changeWidthCoefficient := changeWidthCoefficient;
      this.maxObjectWidth := maxObjectWidth;
      this.minObjectWidth := minObjectWidth;
    }

    /** shouldCollideWith: only objects carrying the tag. */
    predicate ShouldCollideWith(other: GameObject)
      reads other
    {
      other.tag == collideWithTag
    }

    /**
     * onCollisionEnter: the other object takes the changed width (its height
     * and corner stay) and the status removes itself from the default layer.
     */
    method OnCollisionEnter(other: GameObject)
      modifies other, collection
      ensures other.width == ChangedWidth(old(other.width), changeWidthCoefficient, minObjectWidth, maxObjectWidth)
      ensures other.height == old(other.height) && other.x == old(other.x) && other.y == old(other.y)
      ensures other.tag == old(other.tag) && other.vx == old(other.vx) && other.vy == old(other.vy)
      ensures collection.entries == RemoveFirst(old(collection.entries), Entry(body, DEFAULT))
    {
      var newObjectLength := other.width * changeWidthCoefficient;
      if minObjectWidth as real <= newObjectLength <= maxObjectWidth as real {
        other.width := newObjectLength;
      }
      var _ := collection.Remove(body, DEFAULT);
    }
  }

  // ---------------------------------------------------- GraphicLifeCounter

  const LIFE_WIDGET_BUFFER: real := 5.0

  /** The x of the i-th life widget: one buffer in from the counter's corner, one width plus buffer apart. */
  function WidgetX(left: real, width: real, i: nat): real
  {
    left + LIFE_WIDGET_BUFFER + i as real * (width + LIFE_WIDGET_BUFFER)
  }

  /** Neighbouring widgets leave exactly one buffer between them. */
  lemma {:induction false} WidgetGap(left: real, width: real, i: nat)
    ensures WidgetX(left, width, i + 1) - (WidgetX(left, width, i) + width) == LIFE_WIDGET_BUFFER
  {
    assert (i + 1) as real * (width + LIFE_WIDGET_BUFFER) == i as real * (width + LIFE_WIDGET_BUFFER) + width + LIFE_WIDGET_BUFFER;
  }

  /** The widgets' entries in the background layer. */
  function InBackground(ws: seq<GameObject>): seq<Entry>
  {
    seq(|ws|, k requires 0 <= k < |ws| => Entry(ws[k], BACKGROUND))
  }

  /** s with the first occurrence of each of es taken out, in order. */
  function RemoveEach(s: seq<Entry>, es: seq<Entry>): seq<Entry>
    decreases |es|
  {
    if es == [] then s else RemoveEach(RemoveFirst(s, es[0]), es[1..])
  }

  /** Removal never adds an entry. */
  lemma {:induction false} RemoveEachShrinks(s: seq<Entry>, es: seq<Entry>)
    ensures multiset(RemoveEach(s, es)) <= multiset(s)
    decreases |es|
  {
    if es != [] {
      RemoveEachShrinks(RemoveFirst(s, es[0]), es[1..]);
    }
  }

  /** Removing one more entry at the end of the list is one more RemoveFirst. */
  lemma {:induction false} RemoveEachSnoc(s: seq<Entry>, es: seq<Entry>, e: Entry)
    ensures RemoveEach(s, es + [e]) == RemoveFirst(RemoveEach(s, es), e)
    decreases |es|
  {
    if es == [] {
      assert ([] + [e])[1..] == [];
    } else {
      assert (es + [e])[0] == es[0] && (es + [e])[1..] == es[1..] + [e];
      RemoveEachSnoc(RemoveFirst(s, es[0]), es[1..], e);
    }
  }

  /** Removing entries none of which is there changes nothing. */
  lemma {:induction false} RemoveEachAbsent(s: seq<Entry>, es: seq<Entry>)
    requires forall e :: e in es ==> e !in s
    ensures RemoveEach(s, es) == s
    decreases |es|
  {
    if es != [] {
      RemoveEachAbsent(s, es[1..]);
    }
  }

  /** Entries held at most once are all gone after removing each of them once. */
  lemma {:induction false} RemoveEachGone(s: seq<Entry>, es: seq<Entry>)
    requires forall e :: e in es ==> multiset(s)[e] <= 1
    ensures forall e :: e in es ==> e !in RemoveEach(s, es)
    decreases |es|
  {
    if es != [] {
      var t := RemoveFirst(s, es[0]);
      RemoveFirstGone(s, es[0]);
      assert multiset(t) <= multiset(s);
      RemoveEachGone(t, es[1..]);
      RemoveEachShrinks(t, es[1..]);
      assert multiset(t)[es[0]] == 0;
      forall e | e in es
        ensures e !in RemoveEach(s, es)
      {
        if e != es[0] {
          assert e in es[1..];
        } else {
          assert multiset(RemoveEach(t, es[1..]))[e] == 0;
        }
      }
    }
  }

  /** The background entries of widgets lo..i+1 are those of lo..i and then widget i. */
  lemma RemovedOneMore(ws: seq<GameObject>, lo: nat, i: nat)
    requires lo <= i < |ws|
    ensures InBackground(ws[lo..i + 1]) == InBackground(ws[lo..i]) + [Entry(ws[i], BACKGROUND)]
  {
    assert ws[lo..i + 1][..i - lo] == ws[lo..i];
  }

  /** Removing the same entries a second time changes nothing when each was held at most once. */
  lemma RemoveEachIdempotent(s: seq<Entry>, es: seq<Entry>)
    requires forall e :: e in es ==> multiset(s)[e] <= 1
    ensures RemoveEach(RemoveEach(s, es), es) == RemoveEach(s, es)
  {
    RemoveEachGone(s, es);
    RemoveEachAbsent(RemoveEach(s, es), es);
  }

  /** A row of widgets in the background, one per life, that disappear as lives are lost. */
  class GraphicLifeCounter {
    const body: GameObject
    const livesCounter: Counter
    const collection: GameObjectCollection
    const numOfLives: nat
    const lifeWidgets: seq<GameObject>

    /**
     * createLifeWidgets: numOfLives widgets of the given size, all at the
     * corner's y, at WidgetX along the row, appended in order to the
     * background layer.
     */
    constructor (left: real, top: real, width: real, height: real, livesCounter: Counter,
                 collection: GameObjectCollection, numOfLives: nat)
      modifies collection
      ensures this.livesCounter == livesCounter && this.collection == collection && this.numOfLives == numOfLives
      ensures |lifeWidgets| == numOfLives
      ensures forall i :: 0 <= i < numOfLives ==>
                lifeWidgets[i].x == WidgetX(left, width, i) && lifeWidgets[i].y == top
                && lifeWidgets[i].width == width && lifeWidgets[i].height == height
      ensures forall i :: 0 <= i < numOfLives ==> fresh(lifeWidgets[i])
      ensures forall i, j :: 0 <= i < j < numOfLives ==> lifeWidgets[i] != lifeWidgets[j]
      ensures collection.entries == old(collection.entries) + InBackground(lifeWidgets)
    {
      body := new GameObject(left, top, width, height);
      this.livesCounter := livesCounter;
      this.collection := collection;
      this.numOfLives := numOfLives;
      var widgets: seq<GameObject> := [];
      var lifeWidgetX := left + LIFE_WIDGET_BUFFER;
      var i := 0;
      while i < numOfLives
        invariant 0 <= i <= numOfLives && |widgets| == i
        invariant lifeWidgetX == WidgetX(left, width, i)
        invariant forall k :: 0 <= k < i ==>
                    widgets[k].x == WidgetX(left, width, k) && widgets[k].y == top
                    && widgets[k].width == width && widgets[k].height == height
        invariant forall k :: 0 <= k < i ==> fresh(widgets[k])
        invariant forall k, l :: 0 <= k < l < i ==> widgets[k] != widgets[l]
        invariant collection.entries == old(collection.entries) + InBackground(widgets)
      {
        var widget := new GameObject(lifeWidgetX, top, width, height);
        collection.Add(widget, BACKGROUND);
        assert InBackground(widgets + [widget]) == InBackground(widgets) + [Entry(widget, BACKGROUND)];
        widgets := widgets + [widget];
        WidgetGap(left, width, i);
        lifeWidgetX := lifeWidgetX + (width + LIFE_WIDGET_BUFFER);
        i := i + 1;
      }
      lifeWidgets := widgets;
    }

    /**
     * update: the widgets of the lives already lost, from index livesCounter
     * up to numOfLives - 1, are taken out of the background layer in order.
     * A negative count would index outside the widget array.
     */
    method Update()
      requires livesCounter.value >= 0 && |lifeWidgets| == numOfLives
      modifies collection
      ensures livesCounter.value <= numOfLives ==>
                collection.entries == RemoveEach(old(collection.entries), InBackground(lifeWidgets[livesCounter.value..]))
      ensures livesCounter.value > numOfLives ==> collection.entries == old(collection.entries)
    {
      var lives := livesCounter.value;
      if lives > numOfLives {
        return;
      }
      var i := lives;
      ghost var removed: seq<Entry> := [];
      while i < numOfLives
        invariant lives <= i <= numOfLives
        invariant removed == InBackground(lifeWidgets[lives..i])
        invariant collection.entries == RemoveEach(old(collection.entries), removed)
      {
        var e := Entry(lifeWidgets[i], BACKGROUND);
        RemovedOneMore(lifeWidgets, lives, i);
        RemoveEachSnoc(old(collection.entries), removed, e);
        var _ := collection.Remove(lifeWidgets[i], BACKGROUND);
        removed := removed + [e];
        i := i + 1;
      }
      assert lifeWidgets[lives..i] == lifeWidgets[lives..];
    }
  }
}
