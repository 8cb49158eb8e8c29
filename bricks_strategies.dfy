/**
 * What happens when a brick is hit. A collision strategy is a chain of
 * decorators around a RemoveBrickStrategy; each decorator adds its effect
 * (pucks, a mock paddle, a camera that follows the ball, a falling status)
 * and then hands the collision on. The factory draws the chain at random.
 *
 * The countdown agent and the brick live here as well, because the agent
 * calls back into its camera strategy and the brick calls its strategy.
 */
module BricksStrategies {
  import opened Util
  import opened Oracle
  import opened BricksWorld
  import opened BricksObjects

  // --------------------------------------------------- BrickStrategyFactory

  const NUM_OF_STRATEGIES: nat := 6
  const PUCK_STRATEGY: int := 0
  const ADD_PADDLE_STRATEGY: int := 1
  const CHANGE_CAMERA_STRATEGY: int := 2
  const CHANGE_PADDLE_WIDTH_STRATEGY: int := 3
  const DOUBLE_STRATEGY: int := 4
  const REMOVE_BRICK_STRATEGY: int := 5

  datatype Kind = Puck | AddPaddle | ChangeCamera | ChangePaddleWidth

  /**
   * The shape of a strategy as the factory builds it: a RemoveBrickStrategy
   * under decorators, or Null where the factory would return Java's null.
   */
  datatype Chain = Null | RemoveBrick | Decorated(kind: Kind, inner: Chain)

  /** A chain without null anywhere: decorators down to one RemoveBrickStrategy. */
  predicate WellFormed(c: Chain)
  {
    match c
    case Null => false
    case RemoveBrick => true
    case Decorated(_, inner) => WellFormed(inner)
  }

  /** The number of decorators above the base. */
  function Decorators(c: Chain): nat
  {
    match c
    case Decorated(_, inner) => 1 + Decorators(inner)
    case _ => 0
  }

  /**
   * getSingleStrategy: indices 0 to 3 wrap toBeDecorated in their
   * decorator, 5 is a fresh RemoveBrickStrategy that ignores it, and any
   * other index, the double index 4 included, gives null.
   */
  function GetSingleStrategy(index: int, toBeDecorated: Chain): (c: Chain)
    ensures c == Null <==> !(0 <= index <= 3 || index == REMOVE_BRICK_STRATEGY)
    ensures 0 <= index <= 3 ==> c.Decorated? && c.inner == toBeDecorated
    ensures index == REMOVE_BRICK_STRATEGY ==> c == RemoveBrick
  {
    if index == PUCK_STRATEGY then Decorated(Puck, toBeDecorated)
    else if index == ADD_PADDLE_STRATEGY then Decorated(AddPaddle, toBeDecorated)
    else if index == CHANGE_CAMERA_STRATEGY then Decorated(ChangeCamera, toBeDecorated)
    else if index == CHANGE_PADDLE_WIDTH_STRATEGY then Decorated(ChangePaddleWidth, toBeDecorated)
    else if index == REMOVE_BRICK_STRATEGY then RemoveBrick
    else Null
  }

  /** A built chain and the position of the next unused draw. */
  datatype Drawn = Drawn(chain: Chain, next: nat)

  /**
   * getDoubleStrategy(firstIndexBound): draw the first index below the
   * bound and the second below 4; a first index of 4 is itself a double,
   * drawn with bound 4, otherwise it decorates a new RemoveBrickStrategy;
   * the second index decorates the first strategy.
   */
  function GetDoubleStrategy(draws: Stream, k: nat, firstIndexBound: nat): Drawn
    requires firstIndexBound > 0
    decreases firstIndexBound
  {
    var firstIndex := NextInt(draws(k), firstIndexBound);
    var secondIndex := NextInt(draws(k + 1), NUM_OF_STRATEGIES - 2);
    var first :=
      if firstIndex == DOUBLE_STRATEGY then GetDoubleStrategy(draws, k + 2, NUM_OF_STRATEGIES - 2)
      else Drawn(GetSingleStrategy(firstIndex, RemoveBrick), k + 2);
    Drawn(GetSingleStrategy(secondIndex, first.chain), first.next)
  }

  /** getStrategy: one of six indices; 4 is a double strategy with first bound 5. */
  function GetStrategy(draws: Stream, k: nat): Drawn
  {
    var index := NextInt(draws(k), NUM_OF_STRATEGIES);
    if index == DOUBLE_STRATEGY then GetDoubleStrategy(draws, k + 1, NUM_OF_STRATEGIES - 1)
    else Drawn(GetSingleStrategy(index, RemoveBrick), k + 1)
  }

  /** A double drawn with bound 4 never recurses: two decorators on one base, after two draws. */
  lemma InnerDoubleIsFlat(draws: Stream, k: nat)
    ensures var d := GetDoubleStrategy(draws, k, NUM_OF_STRATEGIES - 2);
      WellFormed(d.chain) && Decorators(d.chain) == 2 && d.next == k + 2
  {
    var firstIndex := NextInt(draws(k), NUM_OF_STRATEGIES - 2);
    assert firstIndex < 4;
    var secondIndex := NextInt(draws(k + 1), NUM_OF_STRATEGIES - 2);
    var first := GetSingleStrategy(firstIndex, RemoveBrick);
    assert first.Decorated? && first.inner == RemoveBrick;
    assert GetSingleStrategy(secondIndex, first).inner == first;
  }

  /** A top-level double has two or three decorators and uses two or four draws. */
  lemma OuterDouble(draws: Stream, k: nat)
    ensures var d := GetDoubleStrategy(draws, k, NUM_OF_STRATEGIES - 1);
      WellFormed(d.chain) && 2 <= Decorators(d.chain) <= 3 && (d.next == k + 2 || d.next == k + 4)
  {
    var firstIndex := NextInt(draws(k), NUM_OF_STRATEGIES - 1);
    var secondIndex := NextInt(draws(k + 1), NUM_OF_STRATEGIES - 2);
    if firstIndex == DOUBLE_STRATEGY {
      InnerDoubleIsFlat(draws, k + 2);
      var first := GetDoubleStrategy(draws, k + 2, NUM_OF_STRATEGIES - 2);
      assert GetSingleStrategy(secondIndex, first.chain).inner == first.chain;
    } else {
      var first := GetSingleStrategy(firstIndex, RemoveBrick);
      assert first.Decorated? && first.inner == RemoveBrick;
      assert GetSingleStrategy(secondIndex, first).inner == first;
    }
  }

  /**
   * getStrategy never yields null: every strategy is one RemoveBrickStrategy
   * under at most three decorators, drawn from at most five draws.
   */
  lemma StrategyShape(draws: Stream, k: nat)
    ensures var d := GetStrategy(draws, k);
      WellFormed(d.chain) && Decorators(d.chain) <= 3 && k < d.next <= k + 5
  {
    var index := NextInt(draws(k), NUM_OF_STRATEGIES);
    if index == DOUBLE_STRATEGY {
      OuterDouble(draws, k + 1);
    } else {
      assert GetSingleStrategy(index, RemoveBrick) != Null;
    }
  }

  /**
   * The index draw decides the strategy: 5 is a bare RemoveBrickStrategy,
   * 0 to 3 one decorator over it, and the double index at least two
   * decorators, so a double is never a bare removal.
   */
  lemma StrategyByIndex(draws: Stream, k: nat)
    ensures var index := NextInt(draws(k), NUM_OF_STRATEGIES);
      var c := GetStrategy(draws, k).chain;
      (index == REMOVE_BRICK_STRATEGY ==> c == RemoveBrick)
      && (0 <= index <= 3 ==> c == GetSingleStrategy(index, RemoveBrick) && Decorators(c) == 1)
      && (index == DOUBLE_STRATEGY <==> Decorators(c) >= 2)
  {
    var index := NextInt(draws(k), NUM_OF_STRATEGIES);
    if index == DOUBLE_STRATEGY {
      OuterDouble(draws, k + 1);
    } else if 0 <= index <= 3 {
      assert GetSingleStrategy(index, RemoveBrick).inner == RemoveBrick;
    }
  }

  // ---------------------------------------------------- strategies in play

  /**
   * A strategy as the game holds it: the chain with the collection at its
   * base and, in each ChangeCameraStrategy, the switch that keeps its agent.
   */
  datatype Strategy =
    | RemoveBrickStrategy(collection: GameObjectCollection)
    | PuckStrategy(toBeDecorated: Strategy)
    | AddPaddleStrategy(toBeDecorated: Strategy)
    | ChangeCameraStrategy(toBeDecorated: Strategy, switch: CameraSwitch)
    | ChangePaddleWidthStrategy(toBeDecorated: Strategy)

  /** The chain a strategy was built from. */
  function Shape(s: Strategy): (c: Chain)
    ensures WellFormed(c)
  {
    match s
    case RemoveBrickStrategy(_) => RemoveBrick
    case PuckStrategy(t) => Decorated(Puck, Shape(t))
    case AddPaddleStrategy(t) => Decorated(AddPaddle, Shape(t))
    case ChangeCameraStrategy(t, _) => Decorated(ChangeCamera, Shape(t))
    case ChangePaddleWidthStrategy(t) => Decorated(ChangePaddleWidth, Shape(t))
  }

  /** getGameObjectCollection: every decorator answers with its base's collection. */
  function GetGameObjectCollection(s: Strategy): GameObjectCollection
  {
    match s
    case RemoveBrickStrategy(collection) => collection
    case PuckStrategy(t) => GetGameObjectCollection(t)
    case AddPaddleStrategy(t) => GetGameObjectCollection(t)
    case ChangeCameraStrategy(t, _) => GetGameObjectCollection(t)
    case ChangePaddleWidthStrategy(t) => GetGameObjectCollection(t)
  }

  /** The camera switches along the chain. */
  function Switches(s: Strategy): set<CameraSwitch>
  {
    match s
    case RemoveBrickStrategy(_) => {}
    case PuckStrategy(t) => Switches(t)
    case AddPaddleStrategy(t) => Switches(t)
    case ChangeCameraStrategy(t, sw) => {sw} + Switches(t)
    case ChangePaddleWidthStrategy(t) => Switches(t)
  }

  /** Every camera strategy of the chain works on the chain's collection and the game's camera. */
  predicate Wired(s: Strategy, camera: GameCamera)
  {
    forall sw :: sw in Switches(s) ==> sw.collection == GetGameObjectCollection(s) && sw.camera == camera
  }

  /**
   * The factory's constructors, run over a drawn chain: each camera
   * strategy gets a switch of its own with no agent yet.
   */
  method Build(c: Chain, collection: GameObjectCollection, camera: GameCamera) returns (s: Strategy)
    requires WellFormed(c)
    ensures Shape(s) == c && GetGameObjectCollection(s) == collection && Wired(s, camera)
    ensures forall sw :: sw in Switches(s) ==> fresh(sw) && sw.agent == None
  {
    match c {
      case RemoveBrick =>
        s := RemoveBrickStrategy(collection);
      case Decorated(kind, inner) =>
        if kind == ChangeCamera {
          var sw := new CameraSwitch(camera, collection);
          var t := Build(inner, collection, camera);
          s := ChangeCameraStrategy(t, sw);
        } else {
          var t := Build(inner, collection, camera);
          match kind {
            case Puck => s := PuckStrategy(t);
            case AddPaddle => s := AddPaddleStrategy(t);
            case ChangePaddleWidth => s := ChangePaddleWidthStrategy(t);
          }
        }
    }
  }

  // ------------------------------------------------- ChangeCameraStrategy

  const NUM_BALL_COLLISIONS_TO_TURN_OFF: int := 4

  /** A ChangeCameraStrategy's own state: the countdown agent it started, if any. */
  class CameraSwitch {
    const camera: GameCamera
    const collection: GameObjectCollection
    var agent: Option<CountdownAgent>

    constructor (camera: GameCamera, collection: GameObjectCollection)
      ensures this.camera == camera && this.collection == collection && agent == None
    {
      this.camera := camera;
      this.collection := collection;
      agent := None;
    }

    /**
     * turnOffCameraChange: the camera is cleared, the agent leaves the
     * default layer and is forgotten.
     */
    method TurnOffCameraChange()
      modifies this, camera, collection
      ensures camera.target == None && agent == None
      ensures old(agent).Some? ==>
                collection.entries == RemoveFirst(old(collection.entries), Entry(old(agent).value.body, DEFAULT))
      ensures old(agent).None? ==> collection.entries == old(collection.entries)
    {
      camera.target := None;
      if agent.Some? {
        var _ := collection.Remove(agent.value.body, DEFAULT);
      }
      agent := None;
    }
  }

  /** Watches the main ball and turns the camera off after a set number of its collisions. */
  class CountdownAgent {
    const body: GameObject
    const ball: Ball
    const owner: CameraSwitch
    const countDownValue: int
    const initialCollisionCount: int

    /** The baseline counts the brick collision that is still being handled. */
    constructor (ball: Ball, owner: CameraSwitch, countDownValue: int)
      ensures this.ball == ball && this.owner == owner && this.countDownValue == countDownValue
      ensures initialCollisionCount == ball.collisionCount + 1
      ensures body.tag == "" && fresh(body)
    {
      body := new GameObject(0.0, 0.0, 0.0, 0.0);
      this.ball := ball;
      this.owner := owner;
      this.countDownValue := countDownValue;
      initialCollisionCount := ball.collisionCount + 1;
    }

    /** The countdown has run out: exactly countDownValue collisions past the baseline. */
    predicate Expired()
      reads ball
    {
      ball.collisionCount - initialCollisionCount == countDownValue
    }

    /** update: on expiry the owner turns the camera off; otherwise nothing changes. */
    method Update()
      modifies owner, owner.camera, owner.collection
      ensures old(Expired()) ==> owner.camera.target == None && owner.agent == None
      ensures old(Expired()) && old(owner.agent).Some? ==>
                owner.collection.entries == RemoveFirst(old(owner.collection.entries), Entry(old(owner.agent).value.body, DEFAULT))
      ensures !old(Expired()) ==>
                owner.camera.target == old(owner.camera.target) && owner.agent == old(owner.agent)
                && owner.collection.entries == old(owner.collection.entries)
    {
      if ball.collisionCount - initialCollisionCount == countDownValue {
        owner.TurnOffCameraChange();
      }
    }
  }

  /** The agent expires on the ball's collision number baseline + countDownValue, and on no other. */
  lemma ExpiresOnce(baseline: int, countDownValue: int, collisions: int)
    ensures collisions - baseline == countDownValue <==> collisions == baseline + countDownValue
  {
  }

  /** The entries tagged as the main ball. */
  function MainBalls(s: seq<Entry>): (r: seq<Entry>)
    reads set e | e in s :: e.obj
    ensures |r| <= |s|
    ensures forall i :: 0 <= i < |r| ==> r[i] in s && r[i].obj.tag == MAIN_BALL_TAG
    ensures forall i :: 0 <= i < |s| && s[i].obj.tag == MAIN_BALL_TAG ==> s[i] in r
  {
    if s == [] then []
    else (if s[0].obj.tag == MAIN_BALL_TAG then [s[0]] else []) + MainBalls(s[1..])
  }

  /** Every object tagged as the main ball is this ball: Java's cast to Ball demands it. */
  predicate OnlyMainBall(s: seq<Entry>, mainBall: Ball)
    reads set e | e in s :: e.obj
  {
    forall e :: e in s && e.obj.tag == MAIN_BALL_TAG ==> e.obj == mainBall.body
  }

  /**
   * The camera follows the main ball and the switch holds a new agent
   * counting down 4 of its collisions.
   */
  predicate Started(sw: CameraSwitch, mainBall: Ball)
    reads sw, sw.camera, mainBall
  {
    sw.camera.target == Some(mainBall.body) && sw.agent.Some?
    && sw.agent.value.ball == mainBall && sw.agent.value.owner == sw
    && sw.agent.value.countDownValue == NUM_BALL_COLLISIONS_TO_TURN_OFF
    && sw.agent.value.initialCollisionCount == mainBall.collisionCount + 1
  }

  /**
   * setCameraAndStartCountdown: for each object tagged as the main ball
   * the camera follows it and a new agent, counting down 4 of its
   * collisions, is remembered and added to the default layer. The objects
   * are those present when the search starts.
   */
  method SetCameraAndStartCountdown(sw: CameraSwitch, mainBall: Ball) returns (ghost added: seq<Entry>)
    requires OnlyMainBall(sw.collection.entries, mainBall)
    modifies sw, sw.camera, sw.collection
    ensures sw.collection.entries == old(sw.collection.entries) + added
    ensures |added| == |MainBalls(old(sw.collection.entries))|
    ensures forall e :: e in added ==> e.layer == DEFAULT && fresh(e.obj) && e.obj.tag == ""
    ensures added == [] ==> sw.camera.target == old(sw.camera.target) && sw.agent == old(sw.agent)
    ensures added != [] ==> Started(sw, mainBall) && added[|added| - 1] == Entry(sw.agent.value.body, DEFAULT)
  {
    var objects := sw.collection.entries;
    ghost var tags := Tags(objects);
    MainBallsCount(objects);
    TaggedIsMainBall(objects, mainBall);
    added := StartForEachMainBall(sw, mainBall, objects, tags);
  }

  /** The loop of setCameraAndStartCountdown, over a snapshot of the entries and their tags. */
  method StartForEachMainBall(sw: CameraSwitch, mainBall: Ball, objects: seq<Entry>, ghost tags: seq<string>)
    returns (ghost added: seq<Entry>)
    requires sw.collection.entries == objects && |tags| == |objects|
    requires forall j :: 0 <= j < |objects| ==> objects[j].obj.tag == tags[j]
    requires forall j :: 0 <= j < |objects| && tags[j] == MAIN_BALL_TAG ==> objects[j].obj == mainBall.body
    modifies sw, sw.camera, sw.collection
    ensures sw.collection.entries == objects + added
    ensures |added| == CountMainBallTags(tags)
    ensures forall e :: e in added ==> e.layer == DEFAULT && fresh(e.obj) && e.obj.tag == ""
    ensures added == [] ==> sw.camera.target == old(sw.camera.target) && sw.agent == old(sw.agent)
    ensures added != [] ==> Started(sw, mainBall) && added[|added| - 1] == Entry(sw.agent.value.body, DEFAULT)
  {
    var i := 0;
    added := [];
    while i < |objects|
      invariant 0 <= i <= |objects|
      invariant sw.collection.entries == objects + added
      invariant |added| == CountMainBallTags(tags[..i])
      invariant forall e :: e in added ==> e.layer == DEFAULT && fresh(e.obj) && e.obj.tag == ""
      invariant added == [] ==> sw.camera.target == old(sw.camera.target) && sw.agent == old(sw.agent)
      invariant added != [] ==> Started(sw, mainBall) && added[|added| - 1] == Entry(sw.agent.value.body, DEFAULT)
    {
      assert tags[..i + 1] == tags[..i] + [tags[i]];
      CountMainBallTagsAppend(tags[..i], [tags[i]]);
      if objects[i].obj.tag == MAIN_BALL_TAG {
        StartCountdown(sw, mainBall, objects[i].obj);
        AppendAssoc(objects, added, [Entry(sw.agent.value.body, DEFAULT)]);
        added := added + [Entry(sw.agent.value.body, DEFAULT)];
      }
      i := i + 1;
    }
    assert tags[..i] == tags;
  }

  /**
   * One step of setCameraAndStartCountdown: the camera follows the target
   * and a new agent on the main ball is remembered and added to the
   * default layer.
   */
  method StartCountdown(sw: CameraSwitch, mainBall: Ball, target: GameObject)
    requires target == mainBall.body
    modifies sw, sw.camera, sw.collection
    ensures Started(sw, mainBall)
    ensures fresh(sw.agent.value) && fresh(sw.agent.value.body) && sw.agent.value.body.tag == ""
    ensures sw.collection.entries == old(sw.collection.entries) + [Entry(sw.agent.value.body, DEFAULT)]
  {
    sw.camera.target := Some(target);
    var agent := new CountdownAgent(mainBall, sw, NUM_BALL_COLLISIONS_TO_TURN_OFF);
    sw.agent := Some(agent);
    sw.collection.Add(agent.body, DEFAULT);
  }

  /** The tags of the entries' objects. */
  function Tags(s: seq<Entry>): (r: seq<string>)
    reads set e | e in s :: e.obj
    ensures |r| == |s| && forall i :: 0 <= i < |s| ==> r[i] == s[i].obj.tag
  {
    if s == [] then [] else [s[0].obj.tag] + Tags(s[1..])
  }

  /** Where the main ball is the only one, every main ball tag belongs to its body. */
  lemma TaggedIsMainBall(s: seq<Entry>, mainBall: Ball)
    requires OnlyMainBall(s, mainBall)
    ensures forall j :: 0 <= j < |s| && Tags(s)[j] == MAIN_BALL_TAG ==> s[j].obj == mainBall.body
  {
    forall j | 0 <= j < |s| && Tags(s)[j] == MAIN_BALL_TAG
      ensures s[j].obj == mainBall.body
    {
      assert s[j] in s;
    }
  }

  /** How many of the tags are the main ball's. */
  function CountMainBallTags(tags: seq<string>): nat
  {
    if tags == [] then 0 else (if tags[0] == MAIN_BALL_TAG then 1 else 0) + CountMainBallTags(tags[1..])
  }

  lemma {:induction false} CountMainBallTagsAppend(s: seq<string>, t: seq<string>)
    ensures CountMainBallTags(s + t) == CountMainBallTags(s) + CountMainBallTags(t)
    decreases |s|
  {
    if s == [] {
      assert s + t == t;
    } else {
      assert (s + t)[1..] == s[1..] + t;
      CountMainBallTagsAppend(s[1..], t);
    }
  }

  /** The number of main balls is the number of main ball tags. */
  lemma {:induction false} MainBallsCount(s: seq<Entry>)
    ensures |MainBalls(s)| == CountMainBallTags(Tags(s))
    decreases |s|
  {
    if s != [] {
      MainBallsCount(s[1..]);
    }
  }

  /** MainBalls distributes over concatenation. */
  lemma {:induction false} MainBallsAppend(s: seq<Entry>, t: seq<Entry>)
    ensures MainBalls(s + t) == MainBalls(s) + MainBalls(t)
    decreases |s|
  {
    if s == [] {
      assert s + t == t;
    } else {
      assert (s + t)[0] == s[0] && (s + t)[1..] == s[1..] + t;
      MainBallsAppend(s[1..], t);
    }
  }

  // ---------------------------------------------------------- PuckStrategy

  const NUMBER_OF_PUCKS: nat := 3
  const PUCK_VELOCITY: real := 150.0

  function RealMax(a: real, b: real): real
  {
    if a >= b then a else b
  }

  /** A puck's side: the brick's larger dimension over the number of pucks. */
  function PuckDiameter(width: real, height: real): real
  {
    RealMax(width, height) / NUMBER_OF_PUCKS as real
  }

  /** setPuckVelocity: 150 to the right, or to the left when the draw says so. */
  function PuckVelocityX(raw: nat): (v: real)
    ensures v == PUCK_VELOCITY || v == -PUCK_VELOCITY
    ensures v < 0.0 <==> NextBoolean(raw)
  {
    if NextBoolean(raw) then -PUCK_VELOCITY else PUCK_VELOCITY
  }

  /** The pucks' entries in the default layer. */
  function BodiesInDefault(pucks: seq<Ball>): seq<Entry>
  {
    seq(|pucks|, i requires 0 <= i < |pucks| => Entry(pucks[i].body, DEFAULT))
  }

  /**
   * createPucks: three pucks side by side from the brick's corner, each a
   * square of PuckDiameter, moving down at 150 and sideways at ±150 by one
   * draw each; they fill the brick's larger dimension exactly.
   */
  method CreatePucks(thisObj: GameObject, collection: GameObjectCollection, draws: Stream, k: nat)
    returns (pucks: seq<Ball>)
    modifies collection
    ensures |pucks| == NUMBER_OF_PUCKS
    ensures var d := PuckDiameter(thisObj.width, thisObj.height);
      forall i :: 0 <= i < NUMBER_OF_PUCKS ==>
        pucks[i].body.x == thisObj.x + i as real * d && pucks[i].body.y == thisObj.y
        && pucks[i].body.width == d && pucks[i].body.height == d
        && pucks[i].body.vx == PuckVelocityX(draws(k + i)) && pucks[i].body.vy == PUCK_VELOCITY
        && pucks[i].body.tag == "" && pucks[i].collisionCount == 0
    ensures pucks[NUMBER_OF_PUCKS - 1].body.x + pucks[NUMBER_OF_PUCKS - 1].body.width
            == thisObj.x + RealMax(thisObj.width, thisObj.height)
    ensures forall i :: 0 <= i < NUMBER_OF_PUCKS ==> fresh(pucks[i]) && fresh(pucks[i].body)
    ensures collection.entries == old(collection.entries) + BodiesInDefault(pucks)
  {
    var d := PuckDiameter(thisObj.width, thisObj.height);
    var puckX := thisObj.x;
    pucks := [];
    var i := 0;
    while i < NUMBER_OF_PUCKS
      invariant 0 <= i <= NUMBER_OF_PUCKS && |pucks| == i
      invariant puckX == thisObj.x + i as real * d
      invariant forall j :: 0 <= j < i ==>
        pucks[j].body.x == thisObj.x + j as real * d && pucks[j].body.y == thisObj.y
        && pucks[j].body.width == d && pucks[j].body.height == d
        && pucks[j].body.vx == PuckVelocityX(draws(k + j)) && pucks[j].body.vy == PUCK_VELOCITY
        && pucks[j].body.tag == "" && pucks[j].collisionCount == 0
      invariant forall j :: 0 <= j < i ==> fresh(pucks[j]) && fresh(pucks[j].body)
      invariant collection.entries == old(collection.entries) + BodiesInDefault(pucks)
    {
      var puck := new Ball(puckX, thisObj.y, d, d);
      puck.body.SetVelocity(PuckVelocityX(draws(k + i)), PUCK_VELOCITY);
      collection.Add(puck.body, DEFAULT);
      assert BodiesInDefault(pucks + [puck]) == BodiesInDefault(pucks) + [Entry(puck.body, DEFAULT)];
      pucks := pucks + [puck];
      puckX := puckX + d;
      i := i + 1;
    }
  }

  // ----------------------------------------------------- AddPaddleStrategy

  const NUM_COLLISIONS_FOR_MOCK_PADDLE_DISAPPEARANCE: int := 3
  const MOCK_PADDLE_WIDTH: real := 100.0
  const MOCK_PADDLE_HEIGHT: real := 15.0
  const MIN_DISTANCE_FROM_SCREEN_EDGE: int := 21

  /**
   * getTopLeftCorner's x: a draw below the window width, raised to 21 when
   * below it, else lowered to width - 21 when beyond that.
   */
  function MockPaddleX(raw: nat, windowWidth: int): (x: int)
    requires windowWidth > 0
    ensures windowWidth >= 2 * MIN_DISTANCE_FROM_SCREEN_EDGE ==>
              MIN_DISTANCE_FROM_SCREEN_EDGE <= x <= windowWidth - MIN_DISTANCE_FROM_SCREEN_EDGE
    ensures var drawn := NextInt(raw, windowWidth);
      MIN_DISTANCE_FROM_SCREEN_EDGE <= drawn <= windowWidth - MIN_DISTANCE_FROM_SCREEN_EDGE ==> x == drawn
  {
    var x := NextInt(raw, windowWidth);
    if x < MIN_DISTANCE_FROM_SCREEN_EDGE then MIN_DISTANCE_FROM_SCREEN_EDGE
    else if x > windowWidth - MIN_DISTANCE_FROM_SCREEN_EDGE then windowWidth - MIN_DISTANCE_FROM_SCREEN_EDGE
    else x
  }

  /**
   * createMockPaddle: a 100 by 15 mock paddle tagged "paddle", at
   * MockPaddleX and half the window's height, that disappears after 3
   * collisions; it raises the shared flag and joins the default layer.
   */
  method CreateMockPaddle(collection: GameObjectCollection, flag: MockPaddleFlag,
                          windowWidth: int, windowHeight: real, raw: nat)
    returns (mockPaddle: MockPaddle)
    requires windowWidth > 0
    modifies collection, flag
    ensures flag.isInstantiated
    ensures mockPaddle.paddle.body.x == MockPaddleX(raw, windowWidth) as real
    ensures mockPaddle.paddle.body.y == windowHeight / 2.0
    ensures mockPaddle.paddle.body.width == MOCK_PADDLE_WIDTH && mockPaddle.paddle.body.height == MOCK_PADDLE_HEIGHT
    ensures mockPaddle.paddle.body.tag == PADDLE_TAG
    ensures mockPaddle.paddle.minDistanceFromEdge == MIN_DISTANCE_FROM_SCREEN_EDGE
    ensures mockPaddle.numCollisionsToDisappear == NUM_COLLISIONS_FOR_MOCK_PADDLE_DISAPPEARANCE
    ensures mockPaddle.collisionCounter == 0 && mockPaddle.collection == collection && mockPaddle.flag == flag
    ensures fresh(mockPaddle) && fresh(mockPaddle.paddle.body)
    ensures collection.entries == old(collection.entries) + [Entry(mockPaddle.paddle.body, DEFAULT)]
  {
    var x := MockPaddleX(raw, windowWidth);
    mockPaddle := new MockPaddle(x as real, windowHeight / 2.0, MOCK_PADDLE_WIDTH, MOCK_PADDLE_HEIGHT,
                                 windowWidth as real, collection, MIN_DISTANCE_FROM_SCREEN_EDGE,
                                 NUM_COLLISIONS_FOR_MOCK_PADDLE_DISAPPEARANCE, flag);
    mockPaddle.paddle.body.SetTag(PADDLE_TAG);
    collection.Add(mockPaddle.paddle.body, DEFAULT);
  }

  // --------------------------------------------- ChangePaddleWidthStrategy

  const STATUS_WIDTH: real := 40.0
  const STATUS_HEIGHT: real := 20.0
  const STATUS_VELOCITY: real := 130.0
  const WIDEN_COEFFICIENT: real := 2.0
  const NARROW_COEFFICIENT: real := 0.5
  const MAX_PADDLE_WIDTH: int := 620
  const MIN_PADDLE_WIDTH: int := 20

  /** The status's coefficient: narrowing unless the draw says widen. */
  function StatusCoefficient(raw: nat): (c: real)
    ensures c == WIDEN_COEFFICIENT <==> NextBoolean(raw)
    ensures c == WIDEN_COEFFICIENT || c == NARROW_COEFFICIENT
  {
    if NextBoolean(raw) then WIDEN_COEFFICIENT else NARROW_COEFFICIENT
  }

  /**
   * createStatus: a 40 by 20 status centred on the brick, falling at 130,
   * that resizes "paddle"-tagged objects within [20, 620] by its
   * coefficient; it joins the default layer.
   */
  method CreateStatus(thisObj: GameObject, collection: GameObjectCollection, raw: nat)
    returns (status: StatusDefiner)
    modifies collection
    ensures status.body.CenterX() == thisObj.CenterX() && status.body.CenterY() == thisObj.CenterY()
    ensures status.body.width == STATUS_WIDTH && status.body.height == STATUS_HEIGHT
    ensures status.body.vx == 0.0 && status.body.vy == STATUS_VELOCITY && status.body.tag == ""
    ensures status.collideWithTag == PADDLE_TAG && status.changeWidthCoefficient == StatusCoefficient(raw)
    ensures status.maxObjectWidth == MAX_PADDLE_WIDTH && status.minObjectWidth == MIN_PADDLE_WIDTH
    ensures status.collection == collection
    ensures fresh(status) && fresh(status.body)
    ensures collection.entries == old(collection.entries) + [Entry(status.body, DEFAULT)]
  {
    status := new StatusDefiner(STATUS_WIDTH, STATUS_HEIGHT, collection, PADDLE_TAG,
                                StatusCoefficient(raw), MAX_PADDLE_WIDTH, MIN_PADDLE_WIDTH);
    status.body.SetCenter(thisObj.CenterX(), thisObj.CenterY());
    status.body.SetVelocity(0.0, STATUS_VELOCITY);
    collection.Add(status.body, DEFAULT);
  }

  // ------------------------------------------------------------ onCollision

  /** What every strategy shares: the mock paddle flag, the game's camera and ball, the window. */
  datatype Context = Context(collection: GameObjectCollection, switches: set<CameraSwitch>,
                             flag: MockPaddleFlag, camera: GameCamera, mainBall: Ball,
                             windowWidth: int, windowHeight: real)

  /** The strategy works on the context's collection and camera, with switches among the context's. */
  predicate Fits(s: Strategy, ctx: Context)
  {
    GetGameObjectCollection(s) == ctx.collection && Switches(s) <= ctx.switches && Wired(s, ctx.camera)
  }

  /** The chain holds a camera strategy. */
  predicate HasCamera(s: Strategy)
  {
    Switches(s) != {}
  }

  /** The switch a decorator keeps, if it is a camera strategy. */
  function OwnSwitch(s: Strategy): set<CameraSwitch>
  {
    if s.ChangeCameraStrategy? then {s.switch} else {}
  }

  /**
   * A decorator's own effect before it hands on: the objects it creates are
   * appended to the default layer of the chain's collection, and none of
   * them is tagged as the main ball.
   */
  method DecoratorEffect(s: Strategy, thisObj: GameObject, ctx: Context, draws: Stream, k: nat)
    returns (next: nat, ghost mine: seq<Entry>)
    requires !s.RemoveBrickStrategy? && ctx.windowWidth > 0
    requires Fits(s, ctx)
    requires s.ChangeCameraStrategy? ==> OnlyMainBall(ctx.collection.entries, ctx.mainBall)
    modifies ctx.collection, ctx.flag, ctx.camera, ctx.switches
    ensures ctx.collection.entries == old(ctx.collection.entries) + mine
    ensures forall e :: e in mine ==> e.layer == DEFAULT && fresh(e.obj) && e.obj.tag != MAIN_BALL_TAG
    ensures old(OnlyMainBall(ctx.collection.entries, ctx.mainBall)) ==> OnlyMainBall(ctx.collection.entries, ctx.mainBall)
    ensures k <= next
  {
    var collection := ctx.collection;
    ghost var before := collection.entries;
    ghost var wasOnly := OnlyMainBall(before, ctx.mainBall);
    next := k;
    mine := [];
    match s {
      case PuckStrategy(t) =>
        var pucks := CreatePucks(thisObj, collection, draws, k);
        mine := BodiesInDefault(pucks);
        next := k + NUMBER_OF_PUCKS;
      case AddPaddleStrategy(t) =>
        if !ctx.flag.isInstantiated {
          var mockPaddle := CreateMockPaddle(collection, ctx.flag, ctx.windowWidth, ctx.windowHeight, draws(k));
          mine := [Entry(mockPaddle.paddle.body, DEFAULT)];
          next := k + 1;
        }
      case ChangeCameraStrategy(t, sw) =>
        if ctx.camera.target == None {
          mine := SetCameraAndStartCountdown(sw, ctx.mainBall);
        }
      case ChangePaddleWidthStrategy(t) =>
        var status := CreateStatus(thisObj, collection, draws(k));
        mine := [Entry(status.body, DEFAULT)];
        next := k + 1;
    }
    assert forall e :: e in before ==> e.obj.tag == old(e.obj.tag);
    if wasOnly {
      OnlyMainBallAppend(before, mine, ctx.mainBall);
    }
  }

  /** Appending objects not tagged as the main ball keeps the main ball the only one. */
  lemma OnlyMainBallAppend(s: seq<Entry>, t: seq<Entry>, mainBall: Ball)
    requires OnlyMainBall(s, mainBall)
    requires forall e :: e in t ==> e.obj.tag != MAIN_BALL_TAG
    ensures OnlyMainBall(s + t, mainBall)
  {
  }

  /**
   * Objects appended to the default layer before the brick is removed end
   * up after the remaining entries, and change neither whether the brick
   * was there nor the static layer's count.
   */
  lemma AddedBeforeRemoval(before: seq<Entry>, mine: seq<Entry>, brick: Entry)
    requires brick.layer == STATIC_OBJECTS
    requires forall e :: e in mine ==> e.layer == DEFAULT
    ensures brick in before + mine <==> brick in before
    ensures RemoveFirst(before + mine, brick) == RemoveFirst(before, brick) + mine
    ensures CountLayer(before + mine, STATIC_OBJECTS) == CountLayer(before, STATIC_OBJECTS)
  {
    RemoveFirstAppend(before, mine, brick);
    CountLayerAppend(before, mine, STATIC_OBJECTS);
    CountLayerNone(mine, STATIC_OBJECTS);
  }

  /**
   * One decorator's step seen from outside: when the rest of the chain
   * keeps the counter in step with the static layer over the entries the
   * decorator left, the whole chain keeps it in step over the old entries.
   */
  lemma ChainStep(before: seq<Entry>, mine: seq<Entry>, rest: seq<Entry>, final: seq<Entry>,
                  brick: Entry, c0: int, c2: int)
    requires brick.layer == STATIC_OBJECTS
    requires forall e :: e in mine ==> e.layer == DEFAULT
    requires c2 == c0 - (if brick in before + mine then 1 else 0)
    requires final == RemoveFirst(before + mine, brick) + rest
    requires c2 - CountLayer(final, STATIC_OBJECTS) == c0 - CountLayer(before + mine, STATIC_OBJECTS)
    ensures c2 == c0 - (if brick in before then 1 else 0)
    ensures final == RemoveFirst(before, brick) + (mine + rest)
    ensures c2 - CountLayer(final, STATIC_OBJECTS) == c0 - CountLayer(before, STATIC_OBJECTS)
  {
    AddedBeforeRemoval(before, mine, brick);
    AppendAssoc(RemoveFirst(before, brick), mine, rest);
  }

  /** The chain under a decorator fits the same context, and holds a camera strategy only if the decorator's chain does. */
  lemma InnerFits(s: Strategy, ctx: Context)
    requires !s.RemoveBrickStrategy? && Fits(s, ctx)
    ensures Fits(s.toBeDecorated, ctx)
    ensures HasCamera(s.toBeDecorated) ==> HasCamera(s)
    ensures s.ChangeCameraStrategy? ==> s.switch in ctx.switches
  {
    assert Switches(s) == OwnSwitch(s) + Switches(s.toBeDecorated);
  }

  /** A layer no entry is in has count zero. */
  lemma {:induction false} CountLayerNone(s: seq<Entry>, layer: int)
    requires forall e :: e in s ==> e.layer != layer
    ensures CountLayer(s, layer) == 0
  {
    if s != [] {
      assert s[0] in s;
      CountLayerNone(s[1..], layer);
    }
  }

  /**
   * onCollision along the chain: each decorator adds its objects to the
   * default layer and then hands on, and the base takes the brick out of
   * the static layer, lowering the counter exactly when it was there. So
   * the counter moves in step with the static layer, and a second hit on
   * a brick already removed leaves the counter as it was. `next` is the
   * first draw left unused.
   */
  method OnCollision(s: Strategy, thisObj: GameObject, otherObj: GameObject, counter: Counter,
                     ctx: Context, draws: Stream, k: nat)
    returns (next: nat, ghost added: seq<Entry>)
    requires ctx.windowWidth > 0 && Fits(s, ctx)
    requires HasCamera(s) ==> OnlyMainBall(ctx.collection.entries, ctx.mainBall)
    modifies ctx.collection, counter, ctx.flag, ctx.camera, ctx.switches
    ensures var brick := Entry(thisObj, STATIC_OBJECTS);
      counter.value == old(counter.value) - (if brick in old(ctx.collection.entries) then 1 else 0)
      && ctx.collection.entries == RemoveFirst(old(ctx.collection.entries), brick) + added
    ensures forall e :: e in added ==> e.layer == DEFAULT && fresh(e.obj)
    ensures counter.value - CountLayer(ctx.collection.entries, STATIC_OBJECTS)
            == old(counter.value - CountLayer(ctx.collection.entries, STATIC_OBJECTS))
    ensures k <= next
    decreases s, 1
  {
    if s.RemoveBrickStrategy? {
      next, added := RemoveBrickCollision(s, thisObj, counter, k);
    } else {
      next, added := DecoratedCollision(s, thisObj, otherObj, counter, ctx, draws, k);
    }
  }

  /** RemoveBrickStrategy.onCollision: out of the static layer, and the counter down when it was there. */
  method RemoveBrickCollision(s: Strategy, thisObj: GameObject, counter: Counter, k: nat)
    returns (next: nat, ghost added: seq<Entry>)
    requires s.RemoveBrickStrategy?
    modifies s.collection, counter
    ensures var brick := Entry(thisObj, STATIC_OBJECTS);
      counter.value == old(counter.value) - (if brick in old(s.collection.entries) then 1 else 0)
      && s.collection.entries == RemoveFirst(old(s.collection.entries), brick) + added
    ensures added == []
    ensures counter.value - CountLayer(s.collection.entries, STATIC_OBJECTS)
            == old(counter.value - CountLayer(s.collection.entries, STATIC_OBJECTS))
    ensures next == k
  {
    var brick := Entry(thisObj, STATIC_OBJECTS);
    ghost var before := s.collection.entries;
    var removed := s.collection.Remove(thisObj, STATIC_OBJECTS);
    if removed {
      counter.Decrement();
    }
    CountLayerRemove(before, brick);
    next, added := k, [];
  }

  /** A decorator's onCollision: its own effect, then the rest of the chain. */
  method DecoratedCollision(s: Strategy, thisObj: GameObject, otherObj: GameObject, counter: Counter,
                     ctx: Context, draws: Stream, k: nat)
    returns (next: nat, ghost added: seq<Entry>)
    requires !s.RemoveBrickStrategy?
    requires ctx.windowWidth > 0 && Fits(s, ctx)
    requires HasCamera(s) ==> OnlyMainBall(ctx.collection.entries, ctx.mainBall)
    modifies ctx.collection, counter, ctx.flag, ctx.camera, ctx.switches
    ensures var brick := Entry(thisObj, STATIC_OBJECTS);
      counter.value == old(counter.value) - (if brick in old(ctx.collection.entries) then 1 else 0)
      && ctx.collection.entries == RemoveFirst(old(ctx.collection.entries), brick) + added
    ensures forall e :: e in added ==> e.layer == DEFAULT && fresh(e.obj)
    ensures counter.value - CountLayer(ctx.collection.entries, STATIC_OBJECTS)
            == old(counter.value - CountLayer(ctx.collection.entries, STATIC_OBJECTS))
    ensures k <= next
    decreases s, 0
  {
    var brick := Entry(thisObj, STATIC_OBJECTS);
    ghost var before := ctx.collection.entries;
    ghost var c0 := counter.value;
    InnerFits(s, ctx);
    ghost var mine;
    next, mine := DecoratorEffect(s, thisObj, ctx, draws, k);
    ghost var rest;
    next, rest := OnCollision(s.toBeDecorated, thisObj, otherObj, counter, ctx, draws, next);
    added := mine + rest;
    ChainStep(before, mine, rest, ctx.collection.entries, brick, c0, counter.value);
  }

  // ------------------------------------------------------------------ Brick

  /** A brick that counts itself on creation and hands its collisions to its strategy. */
  class Brick {
    const body: GameObject
    const collisionStrategy: Strategy
    const counter: Counter

    constructor (x: real, y: real, width: real, height: real, collisionStrategy: Strategy, counter: Counter)
      modifies counter
      ensures counter.value == old(counter.value) + 1
      ensures body.x == x && body.y == y && body.width == width && body.height == height && body.tag == ""
      ensures this.collisionStrategy == collisionStrategy && this.counter == counter
      ensures fresh(body)
    {
      body := new GameObject(x, y, width, height);
      this.collisionStrategy := collisionStrategy;
      this.counter := counter;
      new;
      counter.Increment();
    }

    /** onCollisionEnter: the strategy handles the hit, with this brick and its counter. */
    method OnCollisionEnter(other: GameObject, ctx: Context, draws: Stream, k: nat) returns (next: nat)
      requires ctx.windowWidth > 0 && Fits(collisionStrategy, ctx)
      requires HasCamera(collisionStrategy) ==> OnlyMainBall(ctx.collection.entries, ctx.mainBall)
      modifies ctx.collection, counter, ctx.flag, ctx.camera, ctx.switches
      ensures counter.value - CountLayer(ctx.collection.entries, STATIC_OBJECTS)
              == old(counter.value - CountLayer(ctx.collection.entries, STATIC_OBJECTS))
      ensures Entry(body, STATIC_OBJECTS) in old(ctx.collection.entries) ==> counter.value == old(counter.value) - 1
      ensures Entry(body, STATIC_OBJECTS) !in old(ctx.collection.entries) ==> counter.value == old(counter.value)
    {
      ghost var added;
      next, added := OnCollision(collisionStrategy, body, other, counter, ctx, draws, k);
    }
  }
}
