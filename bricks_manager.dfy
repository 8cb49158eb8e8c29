/**
 * BrickerGameManager: it sets up the ball, the paddle, a grid of bricks
 * with drawn collision strategies, the walls, the background and the life
 * widgets, and every frame it drops the objects that fell out of the
 * window and decides whether the game ends. Draws of java.util.Random come
 * from a Stream; sounds, images and the yes/no dialog's answer are left out.
 */
module BricksManager {
  import opened Util
  import opened Oracle
  import opened BricksWorld
  import opened BricksObjects
  import opened BricksStrategies

  const NUMBER_OF_LIVES: nat := 4
  const BALL_DIAMETER: real := 20.0
  const BALL_VELOCITY: real := 150.0
  const PADDLE_WIDTH: real := 100.0
  const PADDLE_HEIGHT: real := 15.0
  const PADDLE_BUFFER: real := 30.0
  const MIN_DISTANCE_FROM_SCREEN_EDGE: int := 21
  const NUMBER_OF_BRICK_ROWS: nat := 5
  const NUMBER_OF_BRICKS_IN_ROW: nat := 8
  const BRICK_HEIGHT: real := 17.0
  const BRICK_BUFFER: real := 5.0
  const BORDER_WIDTH: real := 20.0
  const WIDGET_SIZE: real := 20.0
  const WIDGET_BUFFER: real := 30.0
  const WIN_MESSAGE: string := "You win!"
  const LOSE_MESSAGE: string := "You lose!"
  const PLAY_AGAIN_MESSAGE: string := " Play again?"

  // ------------------------------------------------------------- the ball

  /** setBallVelocity: each component is 150, negated when its coin comes up true. */
  method SetBallVelocity(body: GameObject, draws: Stream, k: nat) returns (next: nat)
    modifies body
    ensures body.vx == (if NextBoolean(draws(k)) then -BALL_VELOCITY else BALL_VELOCITY)
    ensures body.vy == (if NextBoolean(draws(k + 1)) then -BALL_VELOCITY else BALL_VELOCITY)
    ensures Abs(body.vx) == BALL_VELOCITY && Abs(body.vy) == BALL_VELOCITY
    ensures body.tag == old(body.tag) && body.x == old(body.x) && body.y == old(body.y)
    ensures body.width == old(body.width) && body.height == old(body.height)
    ensures next == k + 2
  {
    var ballVelX := BALL_VELOCITY;
    var ballVelY := BALL_VELOCITY;
    if NextBoolean(draws(k)) {
      ballVelX := ballVelX * -1.0;
    }
    if NextBoolean(draws(k + 1)) {
      ballVelY := ballVelY * -1.0;
    }
    body.SetVelocity(ballVelX, ballVelY);
    next := k + 2;
  }

  /** positionBall: the ball is centred in the window and gets a new diagonal velocity. */
  method PositionBall(body: GameObject, windowWidth: real, windowHeight: real, draws: Stream, k: nat)
    returns (next: nat)
    modifies body
    ensures body.CenterX() == windowWidth / 2.0 && body.CenterY() == windowHeight / 2.0
    ensures Abs(body.vx) == BALL_VELOCITY && Abs(body.vy) == BALL_VELOCITY
    ensures body.tag == old(body.tag) && body.width == old(body.width) && body.height == old(body.height)
    ensures next == k + 2
  {
    body.SetCenter(windowWidth / 2.0, windowHeight / 2.0);
    next := SetBallVelocity(body, draws, k);
  }

  /** createBall: a 20 by 20 ball, centred, tagged as the main ball, in the default layer. */
  method CreateBall(collection: GameObjectCollection, windowWidth: real, windowHeight: real, draws: Stream, k: nat)
    returns (ball: Ball, next: nat)
    modifies collection
    ensures fresh(ball) && fresh(ball.body) && ball.collisionCount == 0
    ensures ball.body.tag == MAIN_BALL_TAG
    ensures ball.body.width == BALL_DIAMETER && ball.body.height == BALL_DIAMETER
    ensures ball.body.CenterX() == windowWidth / 2.0 && ball.body.CenterY() == windowHeight / 2.0
    ensures Abs(ball.body.vx) == BALL_VELOCITY && Abs(ball.body.vy) == BALL_VELOCITY
    ensures collection.entries == old(collection.entries) + [Entry(ball.body, DEFAULT)]
    ensures CountLayer(collection.entries, STATIC_OBJECTS) == old(CountLayer(collection.entries, STATIC_OBJECTS))
    ensures next == k + 2
  {
    ball := new Ball(0.0, 0.0, BALL_DIAMETER, BALL_DIAMETER);
    next := PositionBall(ball.body, windowWidth, windowHeight, draws, k);
    ball.body.SetTag(MAIN_BALL_TAG);
    collection.Add(ball.body, DEFAULT);
    CountLayerAppend(old(collection.entries), [Entry(ball.body, DEFAULT)], STATIC_OBJECTS);
  }

  /** createPaddle: a 100 by 15 paddle centred 30 above the bottom, tagged "paddle", in the default layer. */
  method CreatePaddle(collection: GameObjectCollection, windowWidth: real, windowHeight: real)
    returns (paddle: Paddle)
    modifies collection
    ensures fresh(paddle) && fresh(paddle.body)
    ensures paddle.body.tag == PADDLE_TAG
    ensures paddle.body.width == PADDLE_WIDTH && paddle.body.height == PADDLE_HEIGHT
    ensures paddle.body.CenterX() == windowWidth / 2.0 && paddle.body.CenterY() == windowHeight - PADDLE_BUFFER
    ensures paddle.windowWidth == windowWidth && paddle.minDistanceFromEdge == MIN_DISTANCE_FROM_SCREEN_EDGE
    ensures collection.entries == old(collection.entries) + [Entry(paddle.body, DEFAULT)]
    ensures CountLayer(collection.entries, STATIC_OBJECTS) == old(CountLayer(collection.entries, STATIC_OBJECTS))
  {
    paddle := new Paddle(0.0, 0.0, PADDLE_WIDTH, PADDLE_HEIGHT, windowWidth, MIN_DISTANCE_FROM_SCREEN_EDGE);
    paddle.body.SetCenter(windowWidth / 2.0, windowHeight - PADDLE_BUFFER);
    paddle.body.SetTag(PADDLE_TAG);
    collection.Add(paddle.body, DEFAULT);
    CountLayerAppend(old(collection.entries), [Entry(paddle.body, DEFAULT)], STATIC_OBJECTS);
  }

  // ----------------------------------------------------------- the bricks

  /** The window width less two borders and a buffer per brick, shared by the bricks of a row. */
  function BrickWidth(windowWidth: real): real
  {
    (windowWidth - (2.0 * BORDER_WIDTH + BRICK_BUFFER * NUMBER_OF_BRICKS_IN_ROW as real)) / NUMBER_OF_BRICKS_IN_ROW as real
  }

  /** The left edge of brick j of a row: one past the border, then a brick and a buffer per step. */
  function BrickX(brickWidth: real, j: nat): real
  {
    BORDER_WIDTH + 1.0 + j as real * (brickWidth + BRICK_BUFFER)
  }

  /** The top of row i: one past the border, then a brick height and a buffer per row. */
  function RowY(i: nat): real
  {
    BORDER_WIDTH + 1.0 + i as real * (BRICK_HEIGHT + BRICK_BUFFER)
  }

  /** The bricks' bodies in the static layer, in order. */
  function InStatic(bricks: seq<Brick>): (r: seq<Entry>)
    ensures |r| == |bricks|
    ensures forall i :: 0 <= i < |bricks| ==> r[i] == Entry(bricks[i].body, STATIC_OBJECTS)
  {
    if bricks == [] then [] else [Entry(bricks[0].body, STATIC_OBJECTS)] + InStatic(bricks[1..])
  }

  /** One more brick adds its body at the end. */
  lemma InStaticSnoc(bricks: seq<Brick>, brick: Brick)
    ensures InStatic(bricks + [brick]) == InStatic(bricks) + [Entry(brick.body, STATIC_OBJECTS)]
  {
    assert |InStatic(bricks + [brick])| == |InStatic(bricks) + [Entry(brick.body, STATIC_OBJECTS)]|;
  }

  /** Where brick (row, column) sits in the list of all bricks. */
  function Slot(row: nat, column: nat): nat
  {
    NUMBER_OF_BRICKS_IN_ROW * row + column
  }

  /** The brick has the size given and its strategy is the chain drawn for it, on the game's collection and camera. */
  predicate Placed(brick: Brick, x: real, y: real, brickWidth: real, collection: GameObjectCollection, camera: GameCamera)
    reads brick.body
  {
    brick.body.x == x && brick.body.y == y && brick.body.width == brickWidth && brick.body.height == BRICK_HEIGHT
    && GetGameObjectCollection(brick.collisionStrategy) == collection && Wired(brick.collisionStrategy, camera)
    && WellFormed(Shape(brick.collisionStrategy)) && Decorators(Shape(brick.collisionStrategy)) <= 3
  }

  /**
   * createOneBrick: a strategy chain is drawn and built, the brick counts
   * itself, and its body goes into the static layer.
   */
  method CreateOneBrick(collection: GameObjectCollection, camera: GameCamera, counter: Counter,
                        brickWidth: real, brickY: real, brickX: real, draws: Stream, k: nat)
    returns (brick: Brick, next: nat)
    modifies collection, counter
    ensures Placed(brick, brickX, brickY, brickWidth, collection, camera) && brick.counter == counter
    ensures Shape(brick.collisionStrategy) == GetStrategy(draws, k).chain && next == GetStrategy(draws, k).next
    ensures fresh(brick) && fresh(brick.body)
    ensures counter.value == old(counter.value) + 1
    ensures collection.entries == old(collection.entries) + [Entry(brick.body, STATIC_OBJECTS)]
    ensures k < next <= k + 5
  {
    StrategyShape(draws, k);
    var drawn := GetStrategy(draws, k);
    var collisionStrategy := Build(drawn.chain, collection, camera);
    brick := new Brick(brickX, brickY, brickWidth, BRICK_HEIGHT, collisionStrategy, counter);
    collection.Add(brick.body, STATIC_OBJECTS);
    next := drawn.next;
  }

  /** createBricksInRow: eight bricks left to right, brickX stepping by a brick and a buffer; the next row's y is returned. */
  method CreateBricksInRow(collection: GameObjectCollection, camera: GameCamera, counter: Counter,
                           brickWidth: real, brickY: real, draws: Stream, k: nat)
    returns (nextY: real, next: nat, ghost row: seq<Brick>)
    modifies collection, counter
    ensures |row| == NUMBER_OF_BRICKS_IN_ROW
    ensures forall j :: 0 <= j < |row| ==>
              Placed(row[j], BrickX(brickWidth, j), brickY, brickWidth, collection, camera) && row[j].counter == counter
    ensures forall j :: 0 <= j < |row| ==> fresh(row[j]) && fresh(row[j].body)
    ensures counter.value == old(counter.value) + NUMBER_OF_BRICKS_IN_ROW
    ensures collection.entries == old(collection.entries) + InStatic(row)
    ensures nextY == brickY + BRICK_HEIGHT + BRICK_BUFFER
    ensures k <= next
  {
    var brickX := BORDER_WIDTH + 1.0;
    next := k;
    row := [];
    var j := 0;
    while j < NUMBER_OF_BRICKS_IN_ROW
      invariant 0 <= j <= NUMBER_OF_BRICKS_IN_ROW && |row| == j
      invariant brickX == BrickX(brickWidth, j)
      invariant forall m :: 0 <= m < j ==>
                  Placed(row[m], BrickX(brickWidth, m), brickY, brickWidth, collection, camera) && row[m].counter == counter
      invariant forall m :: 0 <= m < j ==> fresh(row[m]) && fresh(row[m].body)
      invariant counter.value == old(counter.value) + j
      invariant collection.entries == old(collection.entries) + InStatic(row)
      invariant k <= next
    {
      var brick;
      brick, next := CreateOneBrick(collection, camera, counter, brickWidth, brickY, brickX, draws, next);
      InStaticSnoc(row, brick);
      row := row + [brick];
      brickX := brickX + (brickWidth + BRICK_BUFFER);
      j := j + 1;
    }
    nextY := brickY + (BRICK_HEIGHT + BRICK_BUFFER);
  }

  /**
   * createBricks: five rows of eight bricks of width BrickWidth; brick
   * (row, column) sits at (BrickX(width, column), RowY(row)). The counter
   * goes up by one per brick and every brick is in the static layer.
   */
  method CreateBricks(collection: GameObjectCollection, camera: GameCamera, counter: Counter,
                      windowWidth: real, draws: Stream, k: nat)
    returns (next: nat, ghost bricks: seq<Brick>)
    modifies collection, counter
    ensures |bricks| == NUMBER_OF_BRICK_ROWS * NUMBER_OF_BRICKS_IN_ROW
    ensures forall r, c :: 0 <= r < NUMBER_OF_BRICK_ROWS && 0 <= c < NUMBER_OF_BRICKS_IN_ROW ==>
              Placed(bricks[Slot(r, c)], BrickX(BrickWidth(windowWidth), c), RowY(r), BrickWidth(windowWidth), collection, camera)
    ensures forall i :: 0 <= i < |bricks| ==> fresh(bricks[i]) && fresh(bricks[i].body) && bricks[i].counter == counter
    ensures counter.value == old(counter.value) + NUMBER_OF_BRICK_ROWS * NUMBER_OF_BRICKS_IN_ROW
    ensures collection.entries == old(collection.entries) + InStatic(bricks)
    ensures CountLayer(collection.entries, STATIC_OBJECTS)
            == old(CountLayer(collection.entries, STATIC_OBJECTS)) + NUMBER_OF_BRICK_ROWS * NUMBER_OF_BRICKS_IN_ROW
    ensures k <= next
  {
    var brickWidth := BrickWidth(windowWidth);
    var brickY := BORDER_WIDTH + 1.0;
    next := k;
    bricks := [];
    var i := 0;
    while i < NUMBER_OF_BRICK_ROWS
      invariant 0 <= i <= NUMBER_OF_BRICK_ROWS && |bricks| == NUMBER_OF_BRICKS_IN_ROW * i
      invariant brickY == RowY(i)
      invariant forall r, c :: 0 <= r < i && 0 <= c < NUMBER_OF_BRICKS_IN_ROW ==>
                  Placed(bricks[Slot(r, c)], BrickX(brickWidth, c), RowY(r), brickWidth, collection, camera)
      invariant forall m :: 0 <= m < |bricks| ==> fresh(bricks[m]) && fresh(bricks[m].body) && bricks[m].counter == counter
      invariant counter.value == old(counter.value) + NUMBER_OF_BRICKS_IN_ROW * i
      invariant collection.entries == old(collection.entries) + InStatic(bricks)
      invariant k <= next
    {
      ghost var row;
      var rowY := brickY;
      brickY, next, row := CreateBricksInRow(collection, camera, counter, brickWidth, brickY, draws, next);
      RowsAppend(bricks, row, i, brickWidth, collection, camera);
      InStaticAppend(bricks, row);
      AppendAssoc(old(collection.entries), InStatic(bricks), InStatic(row));
      bricks := bricks + row;
      i := i + 1;
    }
    CountInStatic(bricks);
    CountLayerAppend(old(collection.entries), InStatic(bricks), STATIC_OBJECTS);
  }

  /** Appending a full row keeps every earlier brick at its slot and puts the row's bricks at row i. */
  lemma RowsAppend(bricks: seq<Brick>, row: seq<Brick>, i: nat, brickWidth: real,
                   collection: GameObjectCollection, camera: GameCamera)
    requires |bricks| == NUMBER_OF_BRICKS_IN_ROW * i && |row| == NUMBER_OF_BRICKS_IN_ROW
    requires forall r, c :: 0 <= r < i && 0 <= c < NUMBER_OF_BRICKS_IN_ROW ==>
               Placed(bricks[Slot(r, c)], BrickX(brickWidth, c), RowY(r), brickWidth, collection, camera)
    requires forall j :: 0 <= j < |row| ==> Placed(row[j], BrickX(brickWidth, j), RowY(i), brickWidth, collection, camera)
    ensures forall r, c :: 0 <= r < i + 1 && 0 <= c < NUMBER_OF_BRICKS_IN_ROW ==>
              Placed((bricks + row)[Slot(r, c)], BrickX(brickWidth, c), RowY(r), brickWidth, collection, camera)
  {
    forall r, c | 0 <= r < i + 1 && 0 <= c < NUMBER_OF_BRICKS_IN_ROW
      ensures Placed((bricks + row)[Slot(r, c)], BrickX(brickWidth, c), RowY(r), brickWidth, collection, camera)
    {
      if r < i {
        assert Slot(r, c) < Slot(r, NUMBER_OF_BRICKS_IN_ROW) <= |bricks|;
        assert (bricks + row)[Slot(r, c)] == bricks[Slot(r, c)];
      } else {
        assert (bricks + row)[Slot(r, c)] == row[c];
      }
    }
  }

  /** InStatic distributes over concatenation. */
  lemma InStaticAppend(a: seq<Brick>, b: seq<Brick>)
    ensures InStatic(a + b) == InStatic(a) + InStatic(b)
  {
    assert InStatic(a + b) == InStatic(a) + InStatic(b);
  }

  /** Every entry of InStatic is in the static layer, so the layer gains one per brick. */
  lemma {:induction false} CountInStatic(bricks: seq<Brick>)
    ensures CountLayer(InStatic(bricks), STATIC_OBJECTS) == |bricks|
    decreases |bricks|
  {
    if bricks != [] {
      CountInStatic(bricks[1..]);
    }
  }

  // ------------------------------------------------- walls and background

  /** A rectangle: corner and size. */
  datatype Rect = Rect(x: real, y: real, width: real, height: real)

  /** createBorders' three walls: left, top and right, each 20 wide. */
  function Walls(windowWidth: real, windowHeight: real): (r: seq<Rect>)
    ensures |r| == 3
  {
    [Rect(0.0, 0.0, BORDER_WIDTH, windowHeight),
     Rect(0.0, 0.0, windowWidth, BORDER_WIDTH),
     Rect(windowWidth - BORDER_WIDTH, 0.0, BORDER_WIDTH, windowHeight)]
  }

  /** The left and right walls stand at the two edges of the window and the top wall spans it. */
  lemma WallsFrameWindow(windowWidth: real, windowHeight: real)
    ensures var w := Walls(windowWidth, windowHeight);
      w[0].x == 0.0 && w[2].x + w[2].width == windowWidth && w[1].width == windowWidth
      && w[0].height == windowHeight && w[2].height == windowHeight && w[1].y == 0.0
  {
  }

  /** The objects in the default layer, in order. */
  function InDefault(ws: seq<GameObject>): (r: seq<Entry>)
    ensures |r| == |ws|
    ensures forall i :: 0 <= i < |ws| ==> r[i] == Entry(ws[i], DEFAULT)
    ensures forall e :: e in r ==> e.layer == DEFAULT
  {
    if ws == [] then [] else [Entry(ws[0], DEFAULT)] + InDefault(ws[1..])
  }

  /** createBorders: a wall object per rectangle, in the default layer. */
  method CreateBorders(collection: GameObjectCollection, windowWidth: real, windowHeight: real)
    returns (ghost walls: seq<GameObject>)
    modifies collection
    ensures |walls| == 3
    ensures forall i :: 0 <= i < 3 ==>
              var rect := Walls(windowWidth, windowHeight)[i];
              walls[i].x == rect.x && walls[i].y == rect.y && walls[i].width == rect.width && walls[i].height == rect.height
              && walls[i].tag == "" && fresh(walls[i])
    ensures collection.entries == old(collection.entries) + InDefault(walls)
    ensures CountLayer(collection.entries, STATIC_OBJECTS) == old(CountLayer(collection.entries, STATIC_OBJECTS))
  {
    var rects := Walls(windowWidth, windowHeight);
    walls := [];
    var i := 0;
    while i < 3
      invariant 0 <= i <= 3 && |walls| == i
      invariant forall m :: 0 <= m < i ==>
                  walls[m].x == rects[m].x && walls[m].y == rects[m].y && walls[m].width == rects[m].width
                  && walls[m].height == rects[m].height && walls[m].tag == "" && fresh(walls[m])
      invariant collection.entries == old(collection.entries) + InDefault(walls)
    {
      var wall := new GameObject(rects[i].x, rects[i].y, rects[i].width, rects[i].height);
      collection.Add(wall, DEFAULT);
      assert InDefault(walls + [wall]) == InDefault(walls) + [Entry(wall, DEFAULT)];
      walls := walls + [wall];
      i := i + 1;
    }
    CountLayerNone(InDefault(walls), STATIC_OBJECTS);
    CountLayerAppend(old(collection.entries), InDefault(walls), STATIC_OBJECTS);
  }

  /** createBackground: a window-sized object in the background layer. */
  method CreateBackground(collection: GameObjectCollection, windowWidth: real, windowHeight: real)
    returns (background: GameObject)
    modifies collection
    ensures fresh(background) && background.tag == ""
    ensures background.x == 0.0 && background.y == 0.0
    ensures background.width == windowWidth && background.height == windowHeight
    ensures collection.entries == old(collection.entries) + [Entry(background, BACKGROUND)]
    ensures CountLayer(collection.entries, STATIC_OBJECTS) == old(CountLayer(collection.entries, STATIC_OBJECTS))
  {
    background := new GameObject(0.0, 0.0, windowWidth, windowHeight);
    collection.Add(background, BACKGROUND);
    CountLayerAppend(old(collection.entries), [Entry(background, BACKGROUND)], STATIC_OBJECTS);
  }

  /** createGraphicCounter: the life widgets 30 above the bottom, and the counter itself, in the background layer. */
  method CreateGraphicCounter(collection: GameObjectCollection, livesCounter: Counter, windowHeight: real)
    returns (lifeCounter: GraphicLifeCounter, top: real)
    modifies collection
    ensures lifeCounter.livesCounter == livesCounter && lifeCounter.collection == collection
    ensures lifeCounter.numOfLives == NUMBER_OF_LIVES && |lifeCounter.lifeWidgets| == NUMBER_OF_LIVES
    ensures collection.entries
            == old(collection.entries) + InBackground(lifeCounter.lifeWidgets) + [Entry(lifeCounter.body, BACKGROUND)]
    ensures top == windowHeight - WIDGET_BUFFER
    ensures CountLayer(collection.entries, STATIC_OBJECTS) == old(CountLayer(collection.entries, STATIC_OBJECTS))
  {
    top := windowHeight - WIDGET_BUFFER;
    lifeCounter := new GraphicLifeCounter(BORDER_WIDTH, top, WIDGET_SIZE, WIDGET_SIZE, livesCounter,
                                          collection, NUMBER_OF_LIVES);
    ghost var widgets := InBackground(lifeCounter.lifeWidgets);
    collection.Add(lifeCounter.body, BACKGROUND);
    BackgroundNotStatic(lifeCounter.lifeWidgets);
    CountLayerAppend(old(collection.entries), widgets, STATIC_OBJECTS);
    CountLayerAppend(old(collection.entries) + widgets, [Entry(lifeCounter.body, BACKGROUND)], STATIC_OBJECTS);
  }

  /** No entry of the background layer is static. */
  lemma {:induction false} BackgroundNotStatic(ws: seq<GameObject>)
    ensures CountLayer(InBackground(ws), STATIC_OBJECTS) == 0
  {
    CountLayerNone(InBackground(ws), STATIC_OBJECTS);
  }

  // ---------------------------------------------------- falling objects

  /** The moving part of initializeGame: the ball, the paddle and the 40 bricks. */
  method CreatePlayField(collection: GameObjectCollection, camera: GameCamera, counter: Counter,
                         windowWidth: real, windowHeight: real, draws: Stream, k: nat)
    returns (ball: Ball, paddle: Paddle, next: nat, ghost bricks: seq<Brick>)
    modifies collection, counter
    ensures fresh(ball) && fresh(ball.body) && ball.body.tag == MAIN_BALL_TAG
    ensures fresh(paddle) && fresh(paddle.body) && paddle.body.tag == PADDLE_TAG
    ensures |bricks| == NUMBER_OF_BRICK_ROWS * NUMBER_OF_BRICKS_IN_ROW
    ensures collection.entries
            == old(collection.entries) + [Entry(ball.body, DEFAULT), Entry(paddle.body, DEFAULT)] + InStatic(bricks)
    ensures counter.value == old(counter.value) + NUMBER_OF_BRICK_ROWS * NUMBER_OF_BRICKS_IN_ROW
    ensures CountLayer(collection.entries, STATIC_OBJECTS)
            == old(CountLayer(collection.entries, STATIC_OBJECTS)) + NUMBER_OF_BRICK_ROWS * NUMBER_OF_BRICKS_IN_ROW
  {
    ghost var start := collection.entries;
    ball, next := CreateBall(collection, windowWidth, windowHeight, draws, k);
    paddle := CreatePaddle(collection, windowWidth, windowHeight);
    AppendAssoc(start, [Entry(ball.body, DEFAULT)], [Entry(paddle.body, DEFAULT)]);
    assert collection.entries == start + [Entry(ball.body, DEFAULT), Entry(paddle.body, DEFAULT)];
    next, bricks := CreateBricks(collection, camera, counter, windowWidth, draws, next);
  }

  /** The still part of initializeGame: the walls, the background and the graphic life counter. */
  method CreateScenery(collection: GameObjectCollection, livesCounter: Counter, windowWidth: real, windowHeight: real)
    returns (lifeCounter: GraphicLifeCounter, ghost walls: seq<GameObject>, background: GameObject)
    modifies collection
    ensures |walls| == 3 && fresh(background)
    ensures lifeCounter.livesCounter == livesCounter && lifeCounter.collection == collection
    ensures lifeCounter.numOfLives == NUMBER_OF_LIVES && |lifeCounter.lifeWidgets| == NUMBER_OF_LIVES
    ensures collection.entries
            == old(collection.entries) + InDefault(walls) + [Entry(background, BACKGROUND)]
               + InBackground(lifeCounter.lifeWidgets) + [Entry(lifeCounter.body, BACKGROUND)]
    ensures CountLayer(collection.entries, STATIC_OBJECTS) == old(CountLayer(collection.entries, STATIC_OBJECTS))
  {
    walls := CreateBorders(collection, windowWidth, windowHeight);
    background := CreateBackground(collection, windowWidth, windowHeight);
    var top;
    lifeCounter, top := CreateGraphicCounter(collection, livesCounter, windowHeight);
  }

  /** An object that removeFallenObjects takes out: not the main ball, centre below the window, in the default layer. */
  predicate Falls(e: Entry, windowHeight: real)
    reads e.obj
  {
    e.layer == DEFAULT && e.obj.tag != MAIN_BALL_TAG && e.obj.CenterY() > windowHeight
  }

  /** The entries that survive removeFallenObjects, in order. */
  function Survivors(s: seq<Entry>, windowHeight: real): seq<Entry>
    reads set e | e in s :: e.obj
  {
    if s == [] then []
    else (if Falls(s[0], windowHeight) then [] else [s[0]]) + Survivors(s[1..], windowHeight)
  }

  /** An entry survives exactly when it was there and does not fall. */
  lemma {:induction false} SurvivorsMembers(s: seq<Entry>, windowHeight: real, e: Entry)
    ensures e in Survivors(s, windowHeight) <==> e in s && !Falls(e, windowHeight)
    decreases |s|
  {
    if s != [] {
      SurvivorsMembers(s[1..], windowHeight, e);
      assert e in s <==> e == s[0] || e in s[1..];
    }
  }

  /** A second pass finds nothing more to remove. */
  lemma {:induction false} SurvivorsIdempotent(s: seq<Entry>, windowHeight: real)
    ensures Survivors(Survivors(s, windowHeight), windowHeight) == Survivors(s, windowHeight)
    decreases |s|
  {
    if s != [] {
      SurvivorsIdempotent(s[1..], windowHeight);
      var rest := Survivors(s[1..], windowHeight);
      if !Falls(s[0], windowHeight) {
        assert ([s[0]] + rest)[0] == s[0] && ([s[0]] + rest)[1..] == rest;
      } else {
        assert Survivors(s, windowHeight) == rest;
      }
    }
  }

  /** Only default-layer entries fall, so the static layer keeps its count. */
  lemma {:induction false} SurvivorsKeepStatic(s: seq<Entry>, windowHeight: real)
    ensures CountLayer(Survivors(s, windowHeight), STATIC_OBJECTS) == CountLayer(s, STATIC_OBJECTS)
    decreases |s|
  {
    if s != [] {
      SurvivorsKeepStatic(s[1..], windowHeight);
      var head := if Falls(s[0], windowHeight) then [] else [s[0]];
      CountLayerAppend(head, Survivors(s[1..], windowHeight), STATIC_OBJECTS);
    }
  }

  /** Whether each entry falls, as seen when the pass starts. */
  function FallMarks(s: seq<Entry>, windowHeight: real): (r: seq<bool>)
    reads set e | e in s :: e.obj
    ensures |r| == |s| && forall i :: 0 <= i < |s| ==> r[i] == Falls(s[i], windowHeight)
  {
    if s == [] then [] else [Falls(s[0], windowHeight)] + FallMarks(s[1..], windowHeight)
  }

  /** The entries whose mark is false. */
  function Unmarked(s: seq<Entry>, marks: seq<bool>): (r: seq<Entry>)
    requires |marks| == |s|
    ensures forall e :: e in r ==> exists i :: 0 <= i < |s| && s[i] == e && !marks[i]
  {
    if s == [] then [] else (if marks[0] then [] else [s[0]]) + Unmarked(s[1..], marks[1..])
  }

  /** The survivors are the entries not marked as falling, in the heap the marks were read in. */
  lemma {:induction false} SurvivorsAreUnmarked(s: seq<Entry>, windowHeight: real)
    ensures Survivors(s, windowHeight) == Unmarked(s, FallMarks(s, windowHeight))
    decreases |s|
  {
    if s != [] {
      SurvivorsAreUnmarked(s[1..], windowHeight);
      assert FallMarks(s, windowHeight)[1..] == FallMarks(s[1..], windowHeight);
    }
  }

  /** Unmarked grows by the next entry exactly when that entry is unmarked. */
  lemma {:induction false} UnmarkedSnoc(s: seq<Entry>, marks: seq<bool>, i: nat)
    requires |marks| == |s| && i < |s|
    ensures Unmarked(s[..i + 1], marks[..i + 1]) == Unmarked(s[..i], marks[..i]) + (if marks[i] then [] else [s[i]])
    decreases i
  {
    if i > 0 {
      UnmarkedSnoc(s[1..], marks[1..], i - 1);
      assert s[..i + 1][1..] == s[1..][..i] && marks[..i + 1][1..] == marks[1..][..i];
      assert s[..i][1..] == s[1..][..i - 1] && marks[..i][1..] == marks[1..][..i - 1];
    }
  }

  /** Taking out the first occurrence of an entry the prefix lacks removes it from the head of the rest. */
  lemma {:induction false} RemoveFirstAfter(a: seq<Entry>, e: Entry, b: seq<Entry>)
    requires e !in a
    ensures RemoveFirst(a + ([e] + b), e) == a + b
    decreases |a|
  {
    if a == [] {
      assert a + ([e] + b) == [e] + b;
    } else {
      var s := a + ([e] + b);
      assert s[0] == a[0] && s[1..] == a[1..] + ([e] + b);
      RemoveFirstAfter(a[1..], e, b);
      assert a + b == [a[0]] + (a[1..] + b);
    }
  }

  /** A kept entry: the pass's state moves on with the entry now behind the kept ones. */
  lemma KeepStep(objects: seq<Entry>, marks: seq<bool>, i: nat)
    requires |marks| == |objects| && i < |objects| && !marks[i]
    ensures Unmarked(objects[..i], marks[..i]) + objects[i..] == Unmarked(objects[..i + 1], marks[..i + 1]) + objects[i + 1..]
  {
    UnmarkedSnoc(objects, marks, i);
    assert objects[i..] == [objects[i]] + objects[i + 1..];
    AppendAssoc(Unmarked(objects[..i], marks[..i]), [objects[i]], objects[i + 1..]);
  }

  /** A falling entry: its first occurrence is the one at i, and taking it out moves the pass on. */
  lemma DropStep(objects: seq<Entry>, marks: seq<bool>, i: nat)
    requires |marks| == |objects| && i < |objects| && marks[i]
    requires forall a, b :: 0 <= a < |objects| && 0 <= b < |objects| && objects[a] == objects[b] ==> marks[a] == marks[b]
    ensures RemoveFirst(Unmarked(objects[..i], marks[..i]) + objects[i..], objects[i])
            == Unmarked(objects[..i + 1], marks[..i + 1]) + objects[i + 1..]
  {
    var kept := Unmarked(objects[..i], marks[..i]);
    UnmarkedSnoc(objects, marks, i);
    assert objects[i..] == [objects[i]] + objects[i + 1..];
    assert objects[i] !in kept;
    RemoveFirstAfter(kept, objects[i], objects[i + 1..]);
    assert kept + [] == kept;
  }

  /**
   * The loop of removeFallenObjects over a snapshot of the entries, with
   * each entry's fate read when the pass starts: a falling entry is taken
   * out of the default layer, the rest stay in order.
   */
  method RemoveMarked(collection: GameObjectCollection, windowHeight: real, objects: seq<Entry>, ghost marks: seq<bool>)
    requires collection.entries == objects && |marks| == |objects|
    requires forall i :: 0 <= i < |objects| ==> marks[i] == Falls(objects[i], windowHeight)
    requires forall i, j :: 0 <= i < |objects| && 0 <= j < |objects| && objects[i] == objects[j] ==> marks[i] == marks[j]
    modifies collection
    ensures collection.entries == Unmarked(objects, marks)
  {
    var i := 0;
    while i < |objects|
      invariant 0 <= i <= |objects|
      invariant collection.entries == Unmarked(objects[..i], marks[..i]) + objects[i..]
    {
      var entry := objects[i];
      if entry.obj.tag != MAIN_BALL_TAG && entry.obj.CenterY() > windowHeight && entry.layer == DEFAULT {
        DropStep(objects, marks, i);
        var _ := collection.Remove(entry.obj, DEFAULT);
      } else {
        KeepStep(objects, marks, i);
      }
      i := i + 1;
    }
    assert objects[..i] == objects && marks[..i] == marks;
  }

  /** removeFallenObjects: every falling entry is taken out and the others stay in order. */
  method RemoveFallenObjects(collection: GameObjectCollection, windowHeight: real)
    modifies collection
    ensures collection.entries == old(Survivors(collection.entries, windowHeight))
  {
    var objects := collection.entries;
    ghost var marks := FallMarks(objects, windowHeight);
    SurvivorsAreUnmarked(objects, windowHeight);
    RemoveMarked(collection, windowHeight, objects, marks);
  }

  // ------------------------------------------------------------ game end

  /** checkForGameEnd's prompt: a win when no brick is left, else a loss when the ball's centre is below the window. */
  function GameEndPrompt(brickCount: int, ballHeight: real, windowHeight: real): (prompt: string)
    ensures prompt == WIN_MESSAGE <==> brickCount == 0
    ensures prompt == LOSE_MESSAGE <==> brickCount != 0 && ballHeight > windowHeight
    ensures prompt == "" <==> brickCount != 0 && ballHeight <= windowHeight
  {
    if brickCount == 0 then WIN_MESSAGE
    else if ballHeight > windowHeight then LOSE_MESSAGE
    else ""
  }

  /** The game manager's state: the two counters, the ball and the window. */
  class BrickerGameManager {
    const windowWidth: real
    const windowHeight: real
    const collection: GameObjectCollection
    const camera: GameCamera
    const livesCounter: Counter
    const brickCounter: Counter
    const ball: Ball
    const paddle: Paddle
    const lifeCounter: GraphicLifeCounter

    /** The brick counter counts the bricks in the static layer; the two counters are different objects. */
    predicate Valid()
      reads this, brickCounter, collection
    {
      livesCounter != brickCounter && brickCounter.value == CountLayer(collection.entries, STATIC_OBJECTS)
    }

    /**
     * initializeGame: four lives, the ball, the paddle, 40 bricks counted
     * by the brick counter, the walls, the background and the life widgets.
     */
    constructor (windowWidth: real, windowHeight: real, draws: Stream, k: nat)
      ensures this.windowWidth == windowWidth && this.windowHeight == windowHeight
      ensures Valid() && brickCounter.value == NUMBER_OF_BRICK_ROWS * NUMBER_OF_BRICKS_IN_ROW
      ensures livesCounter.value == NUMBER_OF_LIVES
      ensures ball.body.tag == MAIN_BALL_TAG && camera.target == None
      ensures lifeCounter.livesCounter == livesCounter && lifeCounter.collection == collection
      ensures lifeCounter.numOfLives == NUMBER_OF_LIVES && |lifeCounter.lifeWidgets| == NUMBER_OF_LIVES
    {
      this.windowWidth := windowWidth;
      this.windowHeight := windowHeight;
      var lives := new Counter(NUMBER_OF_LIVES);
      var bricksLeft := new Counter(0);
      var objects := new GameObjectCollection();
      var gameCamera := new GameCamera();
      CountLayerNone(objects.entries, STATIC_OBJECTS);
      var mainBall, gamePaddle, next, bricks := CreatePlayField(objects, gameCamera, bricksLeft, windowWidth, windowHeight, draws, k);
      var graphicCounter, walls, background := CreateScenery(objects, lives, windowWidth, windowHeight);
      collection := objects;
      camera := gameCamera;
      livesCounter := lives;
      brickCounter := bricksLeft;
      ball := mainBall;
      paddle := gamePaddle;
      lifeCounter := graphicCounter;
    }

    /**
     * treatGameEnd: a life is lost; while lives remain the ball is placed
     * back in the centre with a new velocity, otherwise the play-again
     * dialog opens with the prompt.
     */
    method TreatGameEnd(prompt: string, draws: Stream, k: nat) returns (dialog: Option<string>, next: nat)
      requires livesCounter != brickCounter
      modifies livesCounter, ball.body
      ensures livesCounter.value == old(livesCounter.value) - 1
      ensures livesCounter.value > 0 ==>
                dialog == None && ball.body.CenterX() == windowWidth / 2.0 && ball.body.CenterY() == windowHeight / 2.0
                && Abs(ball.body.vx) == BALL_VELOCITY && Abs(ball.body.vy) == BALL_VELOCITY && next == k + 2
      ensures livesCounter.value <= 0 ==>
                dialog == Some(prompt + PLAY_AGAIN_MESSAGE) && ball.body.x == old(ball.body.x) && ball.body.y == old(ball.body.y)
                && next == k
      ensures ball.body.tag == old(ball.body.tag)
    {
      livesCounter.Decrement();
      if livesCounter.value > 0 {
        next := PositionBall(ball.body, windowWidth, windowHeight, draws, k);
        dialog := None;
      } else {
        dialog := Some(prompt + PLAY_AGAIN_MESSAGE);
        next := k;
      }
    }

    /**
     * checkForGameEnd: with a prompt the game end is treated, without one
     * nothing changes. A win is treated like a loss: it costs a life, and
     * the ball is re-centred while lives remain.
     */
    method CheckForGameEnd(draws: Stream, k: nat) returns (dialog: Option<string>, next: nat)
      requires livesCounter != brickCounter
      modifies livesCounter, ball.body
      ensures var prompt := GameEndPrompt(brickCounter.value, old(ball.body.CenterY()), windowHeight);
        (prompt == "" ==> livesCounter.value == old(livesCounter.value) && dialog == None && next == k
                          && ball.body.x == old(ball.body.x) && ball.body.y == old(ball.body.y))
        && (prompt != "" ==> livesCounter.value == old(livesCounter.value) - 1)
        && (prompt != "" && livesCounter.value > 0 ==>
              dialog == None && ball.body.CenterY() == windowHeight / 2.0 && ball.body.CenterX() == windowWidth / 2.0)
        && (prompt != "" && livesCounter.value <= 0 ==> dialog == Some(prompt + PLAY_AGAIN_MESSAGE))
      ensures ball.body.tag == old(ball.body.tag)
    {
      var ballHeight := ball.body.CenterY();
      var prompt := "";
      if brickCounter.value == 0 {
        prompt := WIN_MESSAGE;
      } else if ballHeight > windowHeight {
        prompt := LOSE_MESSAGE;
      }
      if prompt != "" {
        dialog, next := TreatGameEnd(prompt, draws, k);
      } else {
        dialog, next := None, k;
      }
    }

    /**
     * update, after the engine's own: the fallen objects go, then the game
     * end is checked. The brick counter still counts the static layer.
     */
    method Update(draws: Stream, k: nat) returns (dialog: Option<string>, next: nat)
      requires Valid()
      modifies collection, livesCounter, ball.body
      ensures Valid()
      ensures collection.entries == old(Survivors(collection.entries, windowHeight))
      ensures var prompt := GameEndPrompt(brickCounter.value, old(ball.body.CenterY()), windowHeight);
        (prompt == "" <==> livesCounter.value == old(livesCounter.value))
        && (prompt != "" ==> livesCounter.value == old(livesCounter.value) - 1)
    {
      SurvivorsKeepStatic(collection.entries, windowHeight);
      RemoveFallenObjects(collection, windowHeight);
      dialog, next := CheckForGameEnd(draws, k);
    }
  }

  /** Once every brick is gone, each frame's check costs a life: the win prompt does not depend on the ball. */
  lemma {:induction false} WinCostsALifePerFrame(ballHeight: real, windowHeight: real)
    ensures GameEndPrompt(0, ballHeight, windowHeight) == WIN_MESSAGE
    ensures GameEndPrompt(0, ballHeight, windowHeight) != ""
  {
    assert WIN_MESSAGE != "";
  }
}
