# Five Java course projects, modelled in Dafny

This project models the sequential core of five small Java projects and proves
properties of that model. Each project is one or more Dafny modules; the
`common.dfy` module `Util` holds shared helpers and `Oracle` stands for
`java.util.Random`.

- **Pepse**, an infinite side-scrolling world (`pepse_*.dfy`). It covers:
  - the 30-pixel block grid;
  - terrain columns generated from a noise function;
  - trunks and tree crowns planted with no two trees side by side;
  - the leaves' on-tree and off-tree state machine;
  - the avatar's energy and velocity rules;
  - the game manager's sliding window of created world, which grows on one
    side and evicts objects by tag on the other.
- **Tic-tac-toe** on a 6 by 6 board, where 4 in a row wins (`ttt_*.dfy`). It
  covers:
  - the board in a 2-D array, with run counting and winner detection;
  - the four kinds of player and the player factory;
  - the alternating game loop;
  - the tournament, which swaps marks each round and tallies the results.
- **ASCII art** (`ascii_*.dfy`). It covers:
  - Floyd's duplicate finder and the Morse translator;
  - the interactive shell's command and character-range parser, the
    character set and the resolution bounds;
  - the brightness matcher: the paired bubble sort, linear stretching, the
    nearest-brightness choice, the brightness cache and the tile-by-tile
    filling of the picture.
- **Bricker**, a brick-breaker game (`bricks_*.dfy`). It covers:
  - the game manager: setup of ball, paddle, 5 by 8 bricks, walls and life
    widgets; removal of fallen objects; the game-end check;
  - the random brick strategies, built as decorator chains over the
    brick-removal strategy;
  - the paddle, mock paddle, ball, status and life-counter objects;
  - the four algorithm exercises of `Solutions`: greedy task matching,
    minimal leaps, bucket walks (Fibonacci) and tree shapes (Catalan).
- **ChatterBot** (`chatbot.dfy`): the bot's reply to a statement, built from
  a randomly chosen pattern with its placeholder replaced.

The engine's object collection is a sequence of entries, each an object and
its layer. Random draws are an endless stream of raw values, and every
property is stated for all draws. The engine's `Counter` and
`GameObjectCollection` in Bricker, and the Pepse collection, are small
classes of their own (`BricksWorld`, `PepseWorld`).

Imperative Java code keeps its form: classes whose methods change fields
(`modifies`), arrays changed in place and loops with their invariants. Each
method is proved against a specification function or predicate, and the
properties of those functions are proved as lemmas. Java floats are modelled
as `real`. Java `int` `/` and `%` are modelled by `Util.JavaDiv` and
`Util.JavaRem`.

## Model

| member | source | states |
|---|---|---|
| PepseBlock.RoundedCoordinate | terrain_generator/src/pepse/world/Block.java:34-36 | the result is a multiple of 30 with r <= c < r + 30, so it rounds toward minus infinity |
| PepseBlock.RoundInt | terrain_generator/src/pepse/world/Block.java:34-36 | the same rounding for an int argument: a multiple of 30 with r <= c < r + 30 |
| PepseBlock.RoundedUnique | terrain_generator/src/pepse/world/Block.java:34-36 | only one multiple of 30 lies within one block below c, and it is the rounded coordinate |
| PepseBlock.RoundedIdempotent | terrain_generator/src/pepse/world/Block.java:34-36 | rounding a rounded coordinate again changes nothing |
| PepseBlock.RoundedOnGrid | terrain_generator/src/pepse/world/Block.java:34-36 | a coordinate already on the grid rounds to itself |
| PepseBlock.RoundedMonotone | terrain_generator/src/pepse/world/Block.java:34-36 | rounding preserves the order of coordinates |
| PepseBlock.RoundedNegativeExamples | terrain_generator/src/pepse/world/Block.java:34-36 | negative coordinates round down: -1 becomes -30 and -400 becomes -420 |
| PepseWorld.ObjectCollection.Add | terrain_generator/src/pepse/world/Terrain.java:92 | adding an object appends it to the collection and keeps everything else in place |
| PepseTerrain.NewTerrain | terrain_generator/src/pepse/world/Terrain.java:40-45 | the height at x = 0 is two thirds of the window height; the noise and the ground layer are kept |
| PepseTerrain.HeightAtOrigin | terrain_generator/src/pepse/world/Terrain.java:52-55 | at x = 0 the ground height is exactly two thirds of the window height, with no noise added |
| PepseTerrain.Column | terrain_generator/src/pepse/world/Terrain.java:68-72 | one column holds exactly TERRAIN_DEPTH = 20 blocks |
| PepseTerrain.CreateInRange | terrain_generator/src/pepse/world/Terrain.java:65-74 | the collection grows by the columns from the rounded minX to maxX, in the order they are created |
| PepseTerrain.CreateColumn | terrain_generator/src/pepse/world/Terrain.java:68-72 | one column adds its 20 blocks, from the rounded ground height downward |
| PepseTerrain.CreateGroundBlock | terrain_generator/src/pepse/world/Terrain.java:88-93 | adds exactly one ground-tagged block at (x, y) in the ground layer |
| PepseTerrain.ColumnsFromContents | terrain_generator/src/pepse/world/Terrain.java:65-74 | an object is created for a range iff it is a ground block of the ground layer, on the grid, in a visited column, within 20 blocks below that column's rounded height |
| PepseTerrain.ColumnContents | terrain_generator/src/pepse/world/Terrain.java:68-72 | the blocks of one column are exactly the 20 grid positions from its rounded height down |
| PepseTerrain.ColumnsFromSize | terrain_generator/src/pepse/world/Terrain.java:65-74 | a range holds 20 blocks per visited column; it is empty iff the first column is beyond maxX |
| PepseTerrain.ColumnsFromSplit | terrain_generator/src/pepse/world/Terrain.java:65-74 | creating the columns up to mid and then the columns after mid adds the same blocks, in the same order, as creating the whole range at once |
| PepseTerrain.FirstTwoLayersOfColumn | terrain_generator/src/pepse/world/Terrain.java:81-83 | of a column's blocks, the top two are in the first two layers, the third is only when the height is not on the grid, and no deeper block is |
| PepseTrunk.TrunkBase | terrain_generator/src/pepse/world/trees/Trunk.java:40 | the lowest trunk block sits one block above the column's top ground block, on the grid |
| PepseTrunk.NumTrunkBlocks | terrain_generator/src/pepse/world/trees/Trunk.java:42 | a trunk has between 5 and 14 blocks |
| PepseTrunk.EveryTrunkHeightReachable | terrain_generator/src/pepse/world/trees/Trunk.java:42 | every trunk height from 5 to 14 blocks is produced by some draw |
| PepseTrunk.TrunkBlocks | terrain_generator/src/pepse/world/trees/Trunk.java:43-47 | a trunk of n blocks is n objects |
| PepseTrunk.Create | terrain_generator/src/pepse/world/trees/Trunk.java:38-49 | the collection grows by the trunk's blocks, bottom to top; the returned y is one block above the topmost trunk block |
| PepseTrunk.TrunkShape | terrain_generator/src/pepse/world/trees/Trunk.java:38-59 | every trunk block is trunk-tagged, in the trunk layer, at x, on the grid and strictly between the returned y and the ground; the bottom block touches the ground and the top block touches the returned y |
| PepseTree.CrownRadius | terrain_generator/src/pepse/world/trees/Tree.java:113 | a crown reaches between 2 and 4 leaves from its centre to each side |
| PepseTree.Tree.constructor | terrain_generator/src/pepse/world/trees/Tree.java:54-62 | a new tree manager has no recorded trunk positions and is before its first creation |
| PepseTree.Tree.CreateInRange | terrain_generator/src/pepse/world/trees/Tree.java:70-79 | the collection grows by the forest of the range; only the first creation records the trunk positions; afterwards the first creation is over |
| PepseTree.Tree.PlantColumn | terrain_generator/src/pepse/world/trees/Tree.java:72-76 | one column of the scan adds its tree when its coin exceeds 0.85 and moves on two columns, otherwise adds nothing and moves on one column |
| PepseTree.Tree.CreateTree | terrain_generator/src/pepse/world/trees/Tree.java:96-104 | a tree adds its trunk and then its crown around the trunk top; x is recorded only on the first creation; the result is x + 30 |
| PepseTree.Tree.CreateLeaves | terrain_generator/src/pepse/world/trees/Tree.java:111-120 | the collection grows by the crown around (x, y) |
| PepseTree.Tree.CreateLeafRows | terrain_generator/src/pepse/world/trees/Tree.java:117-119 | the collection grows by the leaves of every row of the crown square, top row first |
| PepseTree.Tree.CreateLeavesInRow | terrain_generator/src/pepse/world/trees/Tree.java:125-136 | the collection grows by the leaves of row i, left to right |
| PepseTree.ForestStep | terrain_generator/src/pepse/world/trees/Tree.java:72-77 | a planted column adds its tree and skips its right neighbour; an unplanted column adds nothing |
| PepseTree.PlantedBounds | terrain_generator/src/pepse/world/trees/Tree.java:70-79 | every planted trunk lies within the range, on the grid of its first column |
| PepseTree.PlantedGaps | terrain_generator/src/pepse/world/trees/Tree.java:72-76 | no two trees stand in adjacent columns: consecutive trunks are at least two blocks apart |
| PepseTree.PlantedIff | terrain_generator/src/pepse/world/trees/Tree.java:72-76 | a column of the range holds a tree iff its coin exceeds 0.85 and it is the first column or the column before it holds no tree |
| PepseTree.LeavesInRowContents | terrain_generator/src/pepse/world/trees/Tree.java:125-136 | the leaves of a row are exactly the grid positions of the row where the leaf coin exceeds 0.3 and the ground is more than a block below |
| PepseTree.LeavesInRowsContents | terrain_generator/src/pepse/world/trees/Tree.java:111-136 | the leaves of the crown's rows are exactly the grid positions of the square where a leaf grows |
| PepseTree.CrownContents | terrain_generator/src/pepse/world/trees/Tree.java:111-136 | a crown holds a leaf at a position iff it is on the grid, at most r blocks from the trunk top on both axes (with r from 2 to 4), and a leaf grows there |
| PepseLeaf.ScaledDraw | terrain_generator/src/pepse/world/trees/LeafBlock.java:67-69 | a float draw scaled by a maximum lies in [0, maximum) |
| PepseLeaf.Leaf.constructor | terrain_generator/src/pepse/world/trees/LeafBlock.java:62-72 | a new leaf sits at its tree position, still and opaque, with its three times drawn and the sway and fall tasks scheduled |
| PepseLeaf.Leaf.OnCollisionEnter | terrain_generator/src/pepse/world/trees/LeafBlock.java:94-99 | a collision removes the three transitions and changes nothing else |
| PepseLeaf.Leaf.OnCollisionStay | terrain_generator/src/pepse/world/trees/LeafBlock.java:108-111 | a leaf touching the ground stops, after which it collides with nothing |
| PepseLeaf.Leaf.CreateOnTreeBehavior | terrain_generator/src/pepse/world/trees/LeafBlock.java:117-122 | the leaf is on the tree and the sway and fall tasks are scheduled after its start and life times |
| PepseLeaf.Leaf.CreateOnTreeBehaviorTransitions | terrain_generator/src/pepse/world/trees/LeafBlock.java:128-136 | the angle and width transitions are on; nothing else changes |
| PepseLeaf.Leaf.CreateOffTreeBehavior | terrain_generator/src/pepse/world/trees/LeafBlock.java:143-151 | the leaf is off the tree, fading out, falling at 50 and swaying; it then collides exactly with the ground blocks of the first two layers |
| PepseLeaf.Leaf.FadeOutFinished | terrain_generator/src/pepse/world/trees/LeafBlock.java:145-146 | when the fade-out ends, the leaf is transparent and its reset is scheduled after its death time |
| PepseLeaf.Leaf.ResetLeaf | terrain_generator/src/pepse/world/trees/LeafBlock.java:156-160 | the leaf returns to its tree position, fully opaque, with the on-tree tasks scheduled again |
| PepseLeaf.CollidesWithTopOfColumn | terrain_generator/src/pepse/world/trees/LeafBlock.java:82-85 | a falling leaf collides with a column's top two blocks, with the third only when the height is not on the grid, and with no deeper block |
| PepseLeaf.OnTreeCollidesWithNothing | terrain_generator/src/pepse/world/trees/LeafBlock.java:82-85 | a leaf on its tree collides with nothing |
| PepseAvatar.WalkVelocity | terrain_generator/src/pepse/world/Avatar.java:192-202 | the avatar moves left iff only left is pressed, right iff only right is pressed, and stands iff both or neither are |
| PepseAvatar.NextEnergyInRange | terrain_generator/src/pepse/world/Avatar.java:143-151 | one frame keeps the energy within [0, 100] and in whole half units |
| PepseAvatar.FlightDrains | terrain_generator/src/pepse/world/Avatar.java:144-145 | n frames of flight drain exactly n half units, down to 0 |
| PepseAvatar.RestRestores | terrain_generator/src/pepse/world/Avatar.java:146-147 | n frames at rest restore exactly n half units, up to 100 |
| PepseAvatar.Avatar.constructor | terrain_generator/src/pepse/world/Avatar.java:73-79 | the avatar stands 70 pixels above the given point, with full energy, a display of 100, and not flying |
| PepseAvatar.Avatar.OnCollisionEnter | terrain_generator/src/pepse/world/Avatar.java:99-102 | a collision stops the avatar and changes nothing else |
| PepseAvatar.Avatar.Update | terrain_generator/src/pepse/world/Avatar.java:110-116 | one frame: the energy of the previous frame's motion, flight iff space, shift and energy, jump only from rest, walk velocity from the keys, the angle from the previous horizontal velocity, the fall speed capped at 400 unless flying |
| PepseAvatar.Avatar.UpdateEnergy | terrain_generator/src/pepse/world/Avatar.java:143-151 | the energy follows the flight and rest rule, and the display shows its floor |
| PepseAvatar.Avatar.CheckFly | terrain_generator/src/pepse/world/Avatar.java:166-175 | the avatar flies iff space and shift are pressed and energy is left; flight climbs at 300 |
| PepseAvatar.Avatar.CheckJump | terrain_generator/src/pepse/world/Avatar.java:181-185 | space makes the avatar jump only when its vertical speed is zero |
| PepseAvatar.Avatar.CheckWalk | terrain_generator/src/pepse/world/Avatar.java:192-203 | the velocity follows the arrow keys; the image faces the last pressed direction; the angle uses the velocity before this frame's change |
| PepseAvatar.Avatar.SetAngle | terrain_generator/src/pepse/world/Avatar.java:209-215 | the avatar leans by -30 degrees iff it flies while moving sideways |
| PepseManager.EvictContents | terrain_generator/src/pepse/PepseGameManager.java:202-227 | an object survives eviction iff it is not a ground, trunk or leaf object beyond the coordinate |
| PepseManager.EvictIdempotent | terrain_generator/src/pepse/PepseGameManager.java:202-227 | evicting again at the same coordinate removes nothing more, and eviction never adds objects |
| PepseManager.AvatarCandidate | terrain_generator/src/pepse/PepseGameManager.java:147-149 | the candidate x is on the grid and between a block left of a quarter of the width and three quarters of the width |
| PepseManager.World.constructor | terrain_generator/src/pepse/PepseGameManager.java:75-86 | the world spans [-400, width + 400], holds its terrain and trees, and records the trunk positions of that first creation |
| PepseManager.World.Update | terrain_generator/src/pepse/PepseGameManager.java:94-106 | the world expands left when the avatar is within half a buffer of the start, else right when it is within half a buffer of the end, else nothing changes |
| PepseManager.World.ExpandFromLeft | terrain_generator/src/pepse/PepseGameManager.java:178-183 | content right of end - 200 is evicted, the range [start - 170, start] is created, and both borders move left by 200 |
| PepseManager.World.ExpandFromRight | terrain_generator/src/pepse/PepseGameManager.java:190-195 | content left of start - 200 is evicted, the range [end + 30, end + 200] is created, and both borders move right by 200 |
| PepseManager.World.RemoveObjectsFromSide | terrain_generator/src/pepse/PepseGameManager.java:202-211 | the collection keeps, in order, every object that is not a removable object on the given side |
| PepseManager.World.CreateNewObjectsInRange | terrain_generator/src/pepse/PepseGameManager.java:232-235 | the range's terrain is created first and then its trees; the recorded trunk positions do not change |
| PepseManager.World.GetAvatarTopLeftCorner | terrain_generator/src/pepse/PepseGameManager.java:143-152 | the returned x is the first candidate without a tree, every earlier candidate had one, and y is the ground height at x |
| PepseManager.RemoveObject | terrain_generator/src/pepse/PepseGameManager.java:216-227 | ground, trunk and leaf objects in their own layers are removed; any other object stays |
| PepseManager.WindowWidthKept | terrain_generator/src/pepse/PepseGameManager.java:178-195 | either expansion keeps the world exactly width + 800 wide |
| PepseManager.FirstLeftExpansionRecreatesColumn | terrain_generator/src/pepse/PepseGameManager.java:180 | the first expansion to the left creates the top block of column -420 again, though it already exists and is not evicted |
| TicTacToeBoard.MarkAt | tic_tac_toe/Board.java:54-59 | a cell on the board gives its own mark; any coordinate off the board gives Blank |
| TicTacToeBoard.Place | tic_tac_toe/Board.java:44 | writing a mark sets that one cell and leaves every other cell as it was |
| TicTacToeBoard.StillRunIsShort | tic_tac_toe/Board.java:102-113 | the still direction (0, 0) counts at most the starting cell, so it never yields a streak of four |
| TicTacToeBoard.StreakShift | tic_tac_toe/Board.java:102-113 | a streak of k cells is its first cell followed by a streak of k - 1 from the next cell |
| TicTacToeBoard.RunLengthIsStreak | tic_tac_toe/Board.java:102-113 | in a real direction, the count is at least k iff the k cells from the start are on the board and all hold the mark |
| TicTacToeBoard.WinnerFromStep | tic_tac_toe/Board.java:66-76 | one step of getWinner's row-major scan: the first cell with a streak decides, otherwise the scan moves on |
| TicTacToeBoard.StreakFromSound | tic_tac_toe/Board.java:115-126 | a mark reported by findWinningStreak has a run of four in some direction from the cell |
| TicTacToeBoard.StreakFromComplete | tic_tac_toe/Board.java:115-126 | a run of four from the cell in a direction not yet tried is reported |
| TicTacToeBoard.WinnerFromSound | tic_tac_toe/Board.java:66-76 | a winner reported by the scan has a winning run somewhere |
| TicTacToeBoard.WinnerFromComplete | tic_tac_toe/Board.java:66-76 | a winning run starting at a cell the scan has not passed yet is found |
| TicTacToeBoard.WinnerIffWinningRun | tic_tac_toe/Board.java:66-76 | getWinner reports a winner iff X or O has four in a line, and the reported mark has one |
| TicTacToeBoard.WinningRunIsLine | tic_tac_toe/Board.java:115-126 | a count of four comes only from a real direction, and then the four cells form a line of that mark |
| TicTacToeBoard.EmptyGridNotEnded | tic_tac_toe/Board.java:23-30 | a new board has no winner and the game on it has not ended |
| TicTacToeBoard.CountInRow | tic_tac_toe/Board.java:91-100 | a row holds at most as many marks of a kind as it has cells |
| TicTacToeBoard.PlaceCount | tic_tac_toe/Board.java:40-46 | a legal placement adds one to its mark's count and takes one from the blanks |
| TicTacToeBoard.RowCountsAddUp | tic_tac_toe/Board.java:91-100 | the blanks, X's and O's of a row add up to its length |
| TicTacToeBoard.CountsAddUp | tic_tac_toe/Board.java:91-100 | the blanks, X's and O's of the board add up to 36 |
| TicTacToeBoard.BlankCountPositive | tic_tac_toe/Board.java:91-100 | the board has blanks iff some cell is blank |
| TicTacToeBoard.AllTakenIffNoBlank | tic_tac_toe/Board.java:91-100 | every cell is taken iff there are no blanks |
| TicTacToeBoard.Board.constructor | tic_tac_toe/Board.java:23-30 | a new board is a fresh 6x6 array of blanks |
| TicTacToeBoard.Board.PutMark | tic_tac_toe/Board.java:40-46 | the mark is placed iff the cell is on the board and blank; otherwise the board is unchanged |
| TicTacToeBoard.Board.GetMark | tic_tac_toe/Board.java:54-59 | returns the cell's mark, Blank off the board |
| TicTacToeBoard.Board.CountMarkInDirection | tic_tac_toe/Board.java:102-113 | returns the number of consecutive cells of the mark from the cell in the direction |
| TicTacToeBoard.Board.FindWinningStreak | tic_tac_toe/Board.java:115-126 | returns the first mark, X before O and directions in loop order, with four in a line from the cell |
| TicTacToeBoard.Board.GetWinner | tic_tac_toe/Board.java:66-76 | returns the streak of the first cell in row-major order that has one, Blank if none does |
| TicTacToeBoard.Board.CheckAllCellsTaken | tic_tac_toe/Board.java:91-100 | returns true iff no cell is blank |
| TicTacToeBoard.Board.IsGameEnded | tic_tac_toe/Board.java:83-85 | the game has ended iff there is a winner or every cell is taken |
| TicTacToePlayers.DecodeEncode | tic_tac_toe/HumanPlayer.java:28-33 | typing (row + 1)(col + 1) as a two-digit number selects exactly that cell |
| TicTacToePlayers.DecodeOnBoard | tic_tac_toe/HumanPlayer.java:28-33 | a typed number selects a cell on the board iff it is from 11 to 66 with a units digit from 1 to 6 |
| TicTacToePlayers.DecodeNegativeExample | tic_tac_toe/HumanPlayer.java:30-31 | Java's truncating division: typing -5 gives row -1 and column -6 |
| TicTacToePlayers.FirstBlankInRow | tic_tac_toe/CleverPlayer.java:20-24 | the index of a row's first blank, with every earlier cell taken; the row length when the row is full |
| TicTacToePlayers.FirstBlankFromSpec | tic_tac_toe/SnartypamtsPlayer.java:12-20 | the scan from row r finds nothing iff rows r and after are full; otherwise it finds a blank cell with no blank before it |
| TicTacToePlayers.FirstBlankSpec | tic_tac_toe/SnartypamtsPlayer.java:12-20 | the snartypamts cell is missing iff the board is full, and is otherwise the first blank cell in row-major order |
| TicTacToePlayers.CleverRow | tic_tac_toe/CleverPlayer.java:19 | the clever player's drawn row is on the board |
| TicTacToePlayers.WhateverCell | tic_tac_toe/WhateverPlayer.java:20-23 | the whatever player's drawn cell is on the board |
| TicTacToePlayers.Player.constructor | tic_tac_toe/PlayerFactory.java:16-29 | a new player has its kind, its draws and its inputs, and no attempts yet |
| TicTacToePlayers.Player.PlayTurn | tic_tac_toe/Player.java:5-10 | on a board that is not full, a turn puts the mark into exactly one cell that was blank |
| TicTacToePlayers.Player.SnartypamtsTurn | tic_tac_toe/SnartypamtsPlayer.java:12-20 | the mark goes into the first blank cell in row-major order; a full board is left unchanged |
| TicTacToePlayers.Player.CleverTurn | tic_tac_toe/CleverPlayer.java:17-26 | rows are drawn until one is not full, every earlier drawn row was full, and the mark goes into the first blank of the drawn row |
| TicTacToePlayers.Player.WhateverTurn | tic_tac_toe/WhateverPlayer.java:17-24 | cells are drawn until one is blank, every earlier drawn cell was taken, and the mark goes into that cell |
| TicTacToePlayers.Player.TryWhateverCell | tic_tac_toe/WhateverPlayer.java:21-23 | one attempt draws a cell and places the mark iff the cell is blank |
| TicTacToePlayers.Player.HumanTurn | tic_tac_toe/HumanPlayer.java:19-26 | numbers are read until one selects a blank cell, every earlier one selected an illegal cell, and the mark goes there |
| TicTacToePlayers.KindOfNames | tic_tac_toe/PlayerFactory.java:16-29 | each kind's name gives that kind, and a name gives a kind only if it is that kind's name |
| TicTacToePlayers.BuildPlayer | tic_tac_toe/PlayerFactory.java:16-29 | an unknown name gives null; a known name gives a fresh player of that kind |
| TicTacToeGame.Game.constructor | tic_tac_toe/Game.java:16-20 | the game keeps its two players |
| TicTacToeGame.Game.Run | tic_tac_toe/Game.java:26-38 | the final board has ended, the result is its winner, and X made as many moves as O or one more |
| TicTacToeGame.Turn | tic_tac_toe/Game.java:33 | the mover index counter % 2 is 0 or 1 |
| TicTacToeGame.TurnStep | tic_tac_toe/Game.java:33-34 | the players alternate |
| TicTacToeGame.EmptyTally | tic_tac_toe/Game.java:27 | a new board holds no X and no O |
| TicTacToeGame.TurnCounts | tic_tac_toe/Game.java:33 | a move adds one mark of the mover and takes one blank away |
| TicTacToeGame.EmptyCounts | tic_tac_toe/Board.java:23-30 | a board of blanks holds no mark of either player |
| TicTacToeGame.EmptyRowCount | tic_tac_toe/Board.java:23-30 | a row of blanks holds no mark of either player |
| TicTacToeGame.GameLength | tic_tac_toe/Game.java:31-37 | a game has at most 36 moves, and a drawn game fills all 36 cells |
| TicTacToeTournament.BuildRenderer | tic_tac_toe/RendererFactory.java:14-23 | "console" gives the console renderer, "none" the void renderer, any other name nothing |
| TicTacToeTournament.ConfigureSpec | tic_tac_toe/Tournament.java:70-90 | a tournament is created iff the round count is positive, the renderer name is known and both player names are known; it then holds those kinds |
| TicTacToeTournament.KnownNames | tic_tac_toe/PlayerFactory.java:6-9 | the factory knows exactly the four names human, whatever, clever and snartypamts |
| TicTacToeTournament.Slot | tic_tac_toe/Tournament.java:92-100 | a result goes to one of the three counters |
| TicTacToeTournament.RoundCredit | tic_tac_toe/Tournament.java:42-49 | in round i the players hold different marks (player 1 has X in even rounds), and the round is credited to player 1, player 2 or a draw exactly as the result is player 1's mark, player 2's mark or Blank |
| TicTacToeTournament.Bump | tic_tac_toe/Tournament.java:92-100 | one counter goes up by one and the others stay |
| TicTacToeTournament.Tally | tic_tac_toe/Tournament.java:45 | the results are three counters |
| TicTacToeTournament.TallyStep | tic_tac_toe/Tournament.java:46-48 | counting one more round updates the tally by that round's credit |
| TicTacToeTournament.TallySum | tic_tac_toe/Tournament.java:42-51 | the three counters add up to the number of rounds |
| TicTacToeTournament.TallyCounts | tic_tac_toe/Tournament.java:42-51 | each counter equals the number of rounds credited to it |
| TicTacToeTournament.TallyMeaning | tic_tac_toe/Tournament.java:42-51 | player 1's counter is the number of rounds won with player 1's mark, player 2's likewise, and the draw counter the number of rounds with no winner |
| TicTacToeTournament.UpdateResults | tic_tac_toe/Tournament.java:92-100 | the counter of the result's owner (player 1, player 2, else draw) goes up by one |
| TicTacToeTournament.Tournament.constructor | tic_tac_toe/Tournament.java:31-36 | the tournament keeps its rounds, its renderer and its two players |
| TicTacToeTournament.Tournament.PlayTournament | tic_tac_toe/Tournament.java:42-51 | one outcome per round, each the winner of a finished board, and the returned counters are the tally of the outcomes |
| TicTacToeTournament.CreateTournament | tic_tac_toe/Tournament.java:79-90 | no tournament for invalid arguments; otherwise a fresh tournament with two distinct fresh players of the named kinds |
| TicTacToeTournament.Start | tic_tac_toe/Tournament.java:56-68 | nothing is played unless there are four valid arguments; otherwise the three counters add up to the round count |
| AsciiAlgorithms.Step | ascii_art/src/ascii_art/Algorithms.java:23-28 | every value the walk i -> numList[i] reaches from numList[0] is an index from 1 to n, so the walk never leaves the array |
| AsciiAlgorithms.StepShift | ascii_art/src/ascii_art/Algorithms.java:26-35 | two positions of the walk that hold the same value hold the same value after any number of further steps |
| AsciiAlgorithms.StepPeriod | ascii_art/src/ascii_art/Algorithms.java:26-29 | once positions i and i + p of the walk agree, every later position agrees with the one any multiple of p further on |
| AsciiAlgorithms.Pigeonhole | ascii_art/src/ascii_art/Algorithms.java:16-22 | n + 1 values from 1 to n contain a repeated value |
| AsciiAlgorithms.MeetingExists | ascii_art/src/ascii_art/Algorithms.java:26-29 | the first phase ends: some step s >= 1 has the tortoise (s steps) meet the hare (2s steps) |
| AsciiAlgorithms.MeetingIsRepeated | ascii_art/src/ascii_art/Algorithms.java:31-36 | where the second phase stops, the value is held at two different positions of the array |
| AsciiAlgorithms.FindDuplicate | ascii_art/src/ascii_art/Algorithms.java:22-37 | for n + 1 numbers in [1, n], the result occurs at two different positions of the array |
| AsciiAlgorithms.CodeConcat | ascii_art/src/ascii_art/Algorithms.java:57-65 | the code of two words written together is their two codes written together |
| AsciiAlgorithms.CodeSnoc | ascii_art/src/ascii_art/Algorithms.java:59-63 | adding a letter to a word adds that letter's code to the word's code |
| AsciiAlgorithms.CodeLength | ascii_art/src/ascii_art/Algorithms.java:57-65 | with no empty letter code, a word's code is at least as long as the word |
| AsciiAlgorithms.MorseLetters | ascii_art/src/ascii_art/Algorithms.java:12-14 | the table has 26 codes, each of one to four symbols |
| AsciiAlgorithms.GinZen | ascii_art/src/ascii_art/Algorithms.java:39-51 | "gin" and "zen" share the code "--...-.", so they count once |
| AsciiAlgorithms.TranslateToMorse | ascii_art/src/ascii_art/Algorithms.java:57-65 | the translation of a lowercase word is the codes of its letters in order, with no separator |
| AsciiAlgorithms.UniqueMorseRepresentations | ascii_art/src/ascii_art/Algorithms.java:45-51 | the result is the number of distinct codes among the words, at most the number of words |
| AsciiShell.GetParam | ascii_art/src/ascii_art/Shell.java:106-112 | the parameter is the second word, or empty when there is none |
| AsciiShell.WrongInputLengthSpec | ascii_art/src/ascii_art/Shell.java:118-135 | a line is rejected iff it has more than two words, or exit, chars, console or render is given a parameter |
| AsciiShell.Span | ascii_art/src/ascii_art/Shell.java:246-248 | the characters from lo to hi, both included, and no others |
| AsciiShell.RangeCorrectSpec | ascii_art/src/ascii_art/Shell.java:184-206 | a custom range is correct iff it is one printable character, or two printable ones around '-' |
| AsciiShell.ParseCustomCharRange | ascii_art/src/ascii_art/Shell.java:212-221 | a custom range is parsed iff it is correct |
| AsciiShell.RangeChars | ascii_art/src/ascii_art/Shell.java:227-236 | a parameter stands only for printable characters |
| AsciiShell.RangeCharsSpec | ascii_art/src/ascii_art/Shell.java:227-248 | "all" is ' ' to '~', "space" is ' ' alone, one character is itself, "x-y" is every character between x and y, and a bad parameter is nothing |
| AsciiShell.RangeSymmetric | ascii_art/src/ascii_art/Shell.java:199-200 | "x-y" and "y-x" stand for the same characters |
| AsciiShell.InBorders | ascii_art/src/ascii_art/Shell.java:271-281 | with ordered borders the width lands within them, and a width within them is kept |
| AsciiShell.UpThenDown | ascii_art/src/ascii_art/Shell.java:286-299 | "res up" then "res down" restores the width when the borders did not clip it |
| AsciiShell.Shell.constructor | ascii_art/src/ascii_art/Shell.java:73-82 | the borders are max(1, w / h) and w / 2, the width is 64 clipped to them, the characters are '0' to '9', and output goes to the html file |
| AsciiShell.Shell.AddChars | ascii_art/src/ascii_art/Shell.java:243-250 | the parameter's characters are added to the set |
| AsciiShell.Shell.RemoveChars | ascii_art/src/ascii_art/Shell.java:257-264 | the parameter's characters are removed from the set |
| AsciiShell.Shell.MakeResolutionInBorders | ascii_art/src/ascii_art/Shell.java:271-281 | the width is clipped to the borders |
| AsciiShell.Shell.ResChange | ascii_art/src/ascii_art/Shell.java:286-299 | "up" doubles and "down" halves the width before clipping; any other parameter changes nothing |
| AsciiShell.Shell.ChangeOutputToConsole | ascii_art/src/ascii_art/Shell.java:304-310 | output goes to the console from now on |
| AsciiShell.Shell.CallFunctionByInput | ascii_art/src/ascii_art/Shell.java:140-168 | add, remove, res and console act as their methods do, and every other command leaves the settings as they are |
| AsciiShell.Shell.HandleInput | ascii_art/src/ascii_art/Shell.java:92-100 | a line of the wrong length changes nothing; otherwise add and remove change the character set by the parameter's range, res up/down rescales and clips the width, console switches the output, and every other command (chars, render, exit, unknown) leaves the set, the width and the output as they are; the loop ends exactly after "exit" alone |
| AsciiMatcher.Grey | ascii_art/src/ascii_art/img_to_char/BrightnessImgCharMatcher.java:134-137 | the grey value of a valid colour lies in [0, 255] |
| AsciiMatcher.SumBrightnessBounds | ascii_art/src/ascii_art/img_to_char/BrightnessImgCharMatcher.java:151-154 | the summed pixel brightnesses lie between 0 and the number of pixels |
| AsciiMatcher.ImageBrightnessBounds | ascii_art/src/ascii_art/img_to_char/BrightnessImgCharMatcher.java:145-158 | the brightness of an image lies in [0, 1] |
| AsciiMatcher.Swap | ascii_art/src/ascii_art/img_to_char/BrightnessImgCharMatcher.java:84-97 | entries j and j + 1 trade places and the rest stay |
| AsciiMatcher.SwapStep | ascii_art/src/ascii_art/img_to_char/BrightnessImgCharMatcher.java:107-110 | swapping both arrays at an inversion keeps every character next to its own brightness and keeps equal brightnesses in their original order |
| AsciiMatcher.SwapMultiset | ascii_art/src/ascii_art/img_to_char/BrightnessImgCharMatcher.java:84-97 | exchanging two neighbours keeps the same elements |
| AsciiMatcher.Identity | ascii_art/src/ascii_art/img_to_char/BrightnessImgCharMatcher.java:104 | before sorting, every entry is at its own position |
| AsciiMatcher.PassStep | ascii_art/src/ascii_art/img_to_char/BrightnessImgCharMatcher.java:106-111 | one step of a bubble pass carries the largest brightness seen so far forward |
| AsciiMatcher.PassDone | ascii_art/src/ascii_art/img_to_char/BrightnessImgCharMatcher.java:106-111 | after a pass the sorted tail is one longer |
| AsciiMatcher.PassStepAll | ascii_art/src/ascii_art/img_to_char/BrightnessImgCharMatcher.java:106-111 | one step of a pass keeps the pairing, the stability and the growing sorted tail |
| AsciiMatcher.BubblePass | ascii_art/src/ascii_art/img_to_char/BrightnessImgCharMatcher.java:106-111 | a pass over the first m + 1 entries leaves the largest at m, with the pairing, the stability and the multiset of characters kept |
| AsciiMatcher.SortCharsByBrightness | ascii_art/src/ascii_art/img_to_char/BrightnessImgCharMatcher.java:104-113 | the brightnesses end sorted, every character still sits next to its own brightness (a permutation of both arrays, and the same multiset of characters), and equal brightnesses keep their order |
| AsciiMatcher.SwapBrightness | ascii_art/src/ascii_art/img_to_char/BrightnessImgCharMatcher.java:84-88 | brightnesses i and i + 1 trade places |
| AsciiMatcher.SwapChars | ascii_art/src/ascii_art/img_to_char/BrightnessImgCharMatcher.java:93-97 | characters i and i + 1 trade places |
| AsciiMatcher.StretchBounds | ascii_art/src/ascii_art/img_to_char/BrightnessImgCharMatcher.java:120-129 | between the least and greatest brightness, stretching lands in [0, 1] and keeps the order |
| AsciiMatcher.StretchedRange | ascii_art/src/ascii_art/img_to_char/BrightnessImgCharMatcher.java:120-129 | stretching a sorted array between its first and last entries puts every entry in [0, 1] and keeps it sorted |
| AsciiMatcher.StretchedEnds | ascii_art/src/ascii_art/img_to_char/BrightnessImgCharMatcher.java:120-129 | the least brightness becomes 0 and, when they differ, the greatest becomes 1 |
| AsciiMatcher.StretchAsWrittenEqualBrightness | ascii_art/src/ascii_art/img_to_char/BrightnessImgCharMatcher.java:124-127 | when all brightnesses are equal, the code as written divides by zero for every entry, while the intended result is 0 |
| AsciiMatcher.StretchOneCharacter | ascii_art/src/ascii_art/img_to_char/BrightnessImgCharMatcher.java:124-127 | a one-character set [0.5] gets no number as written and 0 as intended |
| AsciiMatcher.LinearStretching | ascii_art/src/ascii_art/img_to_char/BrightnessImgCharMatcher.java:120-129 | every brightness is stretched between the first and last entries of the array, and becomes 0 when they are equal |
| AsciiMatcher.NearestIndex | ascii_art/src/ascii_art/img_to_char/BrightnessImgCharMatcher.java:164-175 | the chosen index lies within the array |
| AsciiMatcher.NearestIndexSpec | ascii_art/src/ascii_art/img_to_char/BrightnessImgCharMatcher.java:164-175 | the chosen index is the first one whose brightness is nearest the tile's |
| AsciiMatcher.FirstNearestUnique | ascii_art/src/ascii_art/img_to_char/BrightnessImgCharMatcher.java:164-175 | there is only one first nearest index |
| AsciiMatcher.AllEqualChoosesFirst | ascii_art/src/ascii_art/img_to_char/BrightnessImgCharMatcher.java:166-172 | when all brightnesses are equal, the first character is chosen |
| AsciiMatcher.GetCharForSubImage | ascii_art/src/ascii_art/img_to_char/BrightnessImgCharMatcher.java:164-175 | returns the character at the first index whose brightness is nearest the tile's |
| AsciiMatcher.GetCharBrightness | ascii_art/src/ascii_art/img_to_char/BrightnessImgCharMatcher.java:73-79 | a fresh array holding each character's brightness at the character's own index |
| AsciiMatcher.FlatBelow | ascii_art/src/ascii_art/img_to_char/BrightnessImgCharMatcher.java:185-195 | every cell of the grid gets a tile index below the number of tiles |
| AsciiMatcher.FlatColumn | ascii_art/src/ascii_art/img_to_char/BrightnessImgCharMatcher.java:185-195 | the tile of cell (r, c) is c after the tile of (r, 0) |
| AsciiMatcher.FlatNext | ascii_art/src/ascii_art/img_to_char/BrightnessImgCharMatcher.java:191-194 | the next tile goes to the next column, or to column 0 of the next row after the last column |
| AsciiMatcher.TileSizeFits | ascii_art/src/ascii_art/img_to_char/BrightnessImgCharMatcher.java:183-184 | for 1 <= numCharsInRow <= width, the tile side is at least one pixel and the grid has at least one column |
| AsciiMatcher.TileCharNearest | ascii_art/src/ascii_art/img_to_char/BrightnessImgCharMatcher.java:164-175 | the character of a tile is that of the first brightness nearest to the tile's mean brightness |
| AsciiMatcher.ChosenAreGiven | ascii_art/src/ascii_art/img_to_char/BrightnessImgCharMatcher.java:164-175 | every chosen character is one of the given characters |
| AsciiMatcher.SortedCopy | ascii_art/src/ascii_art/img_to_char/BrightnessImgCharMatcher.java:42-45 | fresh arrays holding the given characters (the same multiset) sorted stably by brightness, each next to its own brightness |
| AsciiMatcher.PrepareChars | ascii_art/src/ascii_art/img_to_char/BrightnessImgCharMatcher.java:42-46 | the given characters sorted stably by brightness, each brightness then stretched between the least and the greatest: still sorted and within [0, 1] |
| AsciiMatcher.CopyChars | ascii_art/src/ascii_art/img_to_char/BrightnessImgCharMatcher.java:42-43 | a fresh array with the same characters, so the caller's array is not touched |
| AsciiMatcher.BrightnessImgCharMatcher.constructor | ascii_art/src/ascii_art/img_to_char/BrightnessImgCharMatcher.java:27-31 | keeps the image and the font, with an empty cache |
| AsciiMatcher.BrightnessImgCharMatcher.GetImageBrightness | ascii_art/src/ascii_art/img_to_char/BrightnessImgCharMatcher.java:145-158 | returns the image's mean pixel brightness; a cached image leaves the cache as it is, and a new one is added to it |
| AsciiMatcher.BrightnessImgCharMatcher.ConvertImageToAscii | ascii_art/src/ascii_art/img_to_char/BrightnessImgCharMatcher.java:182-197 | a (height / p) by (width / p) grid, with p = width / numCharsInRow, filled row by row with each tile's nearest character |
| AsciiMatcher.BrightnessImgCharMatcher.ChooseChars | ascii_art/src/ascii_art/img_to_char/BrightnessImgCharMatcher.java:41-48 | the caller's characters are left as they are; the picture has the tile grid's size, and the cell of tile k holds the character, among the given ones sorted stably by brightness, whose stretched brightness is the first nearest to tile k's |
| BricksWorld.Counter.constructor | bricks/src/src/BrickerGameManager.java:89-90 | the counter starts at the given value |
| BricksWorld.Counter.Increment | bricks/src/src/gameobjects/Brick.java:32 | the value goes up by one |
| BricksWorld.Counter.Decrement | bricks/src/src/brick_strategies/RemoveBrickStrategy.java:33 | the value goes down by one |
| BricksWorld.GameObject.constructor | bricks/src/src/BrickerGameManager.java:199 | an untagged, still object with the given corner and size |
| BricksWorld.GameObject.SetCenter | bricks/src/src/BrickerGameManager.java:137 | the centre moves to the given point; size, tag and velocity stay |
| BricksWorld.GameObject.SetVelocity | bricks/src/src/BrickerGameManager.java:133 | the velocity is the given one; position, size and tag stay |
| BricksWorld.GameObject.SetTag | bricks/src/src/BrickerGameManager.java:147 | the tag is the given one; nothing else changes |
| BricksWorld.RemoveFirst | bricks/src/src/brick_strategies/RemoveBrickStrategy.java:32 | removing an object held in a layer takes out one entry and no other; removing one not held changes nothing |
| BricksWorld.RemoveFirstOthers | bricks/src/src/brick_strategies/RemoveBrickStrategy.java:32 | a removal leaves every other entry where it was counted |
| BricksWorld.RemoveFirstGone | bricks/src/src/brick_strategies/RemoveBrickStrategy.java:32 | an entry held once is gone after its removal |
| BricksWorld.RemoveFirstAppend | bricks/src/src/brick_strategies/RemoveBrickStrategy.java:32 | entries added after the removed one do not affect the removal |
| BricksWorld.CountLayer | bricks/src/src/BrickerGameManager.java:164 | a layer never holds more entries than the collection |
| BricksWorld.CountLayerAppend | bricks/src/src/BrickerGameManager.java:164 | the count of a layer in two lists written together is the sum of their counts |
| BricksWorld.CountLayerRemove | bricks/src/src/brick_strategies/RemoveBrickStrategy.java:31-35 | removing an entry lowers its layer's count by one exactly when it was there |
| BricksWorld.GameObjectCollection.constructor | bricks/src/src/BrickerGameManager.java:94 | the collection starts empty |
| BricksWorld.GameObjectCollection.Add | bricks/src/src/BrickerGameManager.java:148 | the object is appended in the given layer |
| BricksWorld.GameObjectCollection.Remove | bricks/src/src/brick_strategies/RemoveBrickStrategy.java:32 | reports true exactly when the object was in that layer, and takes out its first entry |
| BricksWorld.GameCamera.constructor | bricks/src/src/brick_strategies/ChangeCameraStrategy.java:52 | no camera is set at the start |
| BricksObjects.MovementVelocity | bricks/src/src/gameobjects/Paddle.java:51-60 | no key or both keys: still; LEFT alone: -300; RIGHT alone: +300 |
| BricksObjects.KeepWithin | bricks/src/src/gameobjects/Paddle.java:62-71 | with ordered borders the corner ends within them, and a corner within them stays |
| BricksObjects.KeepWithinIdempotent | bricks/src/src/gameobjects/Paddle.java:62-71 | keeping the paddle within the borders twice is keeping it once |
| BricksObjects.Paddle.constructor | bricks/src/src/gameobjects/Paddle.java:31-37 | keeps the window width and the minimal distance from the edge; the paddle starts still |
| BricksObjects.Paddle.Update | bricks/src/src/gameobjects/Paddle.java:44-71 | the velocity follows the keys and the corner is pulled back between the two margins; y, size and tag stay |
| BricksObjects.MockPaddleFlag.constructor | bricks/src/src/gameobjects/MockPaddle.java:21 | no mock paddle exists at the start |
| BricksObjects.MockPaddle.constructor | bricks/src/src/gameobjects/MockPaddle.java:40-49 | raises the flag and starts the collision counter at 0 |
| BricksObjects.MockPaddle.OnCollisionEnter | bricks/src/src/gameobjects/MockPaddle.java:56-64 | counts the hit; on the numCollisionsToDisappear-th the paddle leaves the collection and the flag drops, otherwise neither changes |
| BricksObjects.FlipReverses | bricks/src/src/gameobjects/Ball.java:43 | against a unit normal, the flip reverses the normal component and keeps the speed |
| BricksObjects.FlipTwice | bricks/src/src/gameobjects/Ball.java:43 | flipping twice in the same normal restores the velocity |
| BricksObjects.Ball.constructor | bricks/src/src/gameobjects/Ball.java:28-32 | the collision counter starts at 0 |
| BricksObjects.Ball.OnCollisionEnter | bricks/src/src/gameobjects/Ball.java:40-46 | the velocity is flipped in the collision normal and the collision count goes up by one; position, size and tag stay |
| BricksObjects.ChangedWidth | bricks/src/src/gameobjects/StatusDefiner.java:62-66 | the width is scaled only when the scaled width lies within [min, max], so a width within the bounds stays within them |
| BricksObjects.ThreeWidenings | bricks/src/src/brick_strategies/ChangePaddleWidthStrategy.java:24-27 | a 100 wide paddle widened three times is 400 wide: the third doubling, to 800, is refused |
| BricksObjects.StatusDefiner.constructor | bricks/src/src/gameobjects/StatusDefiner.java:32-40 | keeps the tag to collide with, the coefficient and the width bounds |
| BricksObjects.StatusDefiner.OnCollisionEnter | bricks/src/src/gameobjects/StatusDefiner.java:59-68 | the other object's width becomes ChangedWidth of it, the rest of it stays, and the status leaves the collection |
| BricksObjects.WidgetGap | bricks/src/src/gameobjects/GraphicLifeCounter.java:56-61 | neighbouring life widgets leave exactly the 5 pixel buffer between them |
| BricksObjects.RemoveEachShrinks | bricks/src/src/gameobjects/GraphicLifeCounter.java:51-53 | removing widgets never adds an entry |
| BricksObjects.RemoveEachAbsent | bricks/src/src/gameobjects/GraphicLifeCounter.java:51-53 | removing widgets that are no longer there changes nothing |
| BricksObjects.RemoveEachGone | bricks/src/src/gameobjects/GraphicLifeCounter.java:51-53 | widgets held once are all gone after their removal |
| BricksObjects.RemoveEachIdempotent | bricks/src/src/gameobjects/GraphicLifeCounter.java:48-54 | a second update with the same life count changes nothing |
| BricksObjects.GraphicLifeCounter.constructor | bricks/src/src/gameobjects/GraphicLifeCounter.java:33-42 | numOfLives distinct widgets at WidgetX along the row, appended in order to the background layer |
| BricksObjects.GraphicLifeCounter.Update | bricks/src/src/gameobjects/GraphicLifeCounter.java:48-54 | the widgets from index livesCounter on are removed from the background layer, in order |
| BricksStrategies.GetSingleStrategy | bricks/src/src/brick_strategies/BrickStrategyFactory.java:84-100 | indices 0 to 3 decorate the given strategy, 5 is a new removal strategy, and any other index is null |
| BricksStrategies.InnerDoubleIsFlat | bricks/src/src/brick_strategies/BrickStrategyFactory.java:72-82 | a double drawn with bound 4 never recurses: two decorators on one removal strategy, after two draws |
| BricksStrategies.OuterDouble | bricks/src/src/brick_strategies/BrickStrategyFactory.java:72-82 | a double drawn with bound 5 has two or three decorators and uses two or four draws |
| BricksStrategies.StrategyShape | bricks/src/src/brick_strategies/BrickStrategyFactory.java:64-70 | getStrategy never returns null: one removal strategy under at most three decorators, from one to five draws |
| BricksStrategies.StrategyByIndex | bricks/src/src/brick_strategies/BrickStrategyFactory.java:64-70 | index 5 gives a bare removal, 0 to 3 one decorator, and index 4 exactly the strategies with two or more decorators |
| BricksStrategies.Shape | bricks/src/src/brick_strategies/RemoveBrickStrategyDecorator.java:11-21 | every strategy is a chain of decorators over one removal strategy |
| BricksStrategies.Build | bricks/src/src/brick_strategies/BrickStrategyFactory.java:84-100 | builds the strategy objects of a drawn chain, all on the game's collection, each camera strategy with its own empty agent slot |
| BricksStrategies.CameraSwitch.constructor | bricks/src/src/brick_strategies/ChangeCameraStrategy.java:34-41 | a camera strategy starts with no countdown agent |
| BricksStrategies.CameraSwitch.TurnOffCameraChange | bricks/src/src/brick_strategies/ChangeCameraStrategy.java:61-65 | the camera is cleared, the agent leaves the collection and is forgotten |
| BricksStrategies.CountdownAgent.constructor | bricks/src/src/gameobjects/BallCollisionCountdownAgent.java:26-32 | the baseline is the ball's collision count plus one, for the brick hit being handled |
| BricksStrategies.CountdownAgent.Update | bricks/src/src/gameobjects/BallCollisionCountdownAgent.java:39-45 | exactly when the count is countDownValue past the baseline, the owner turns the camera off; otherwise nothing changes |
| BricksStrategies.ExpiresOnce | bricks/src/src/gameobjects/BallCollisionCountdownAgent.java:42 | the agent fires on the ball's collision number baseline + countDownValue and on no other |
| BricksStrategies.MainBalls | bricks/src/src/brick_strategies/ChangeCameraStrategy.java:69-70 | the entries tagged "main ball", and all of them |
| BricksStrategies.SetCameraAndStartCountdown | bricks/src/src/brick_strategies/ChangeCameraStrategy.java:67-79 | one new agent per object tagged "main ball"; when there is one, the camera follows the ball and the last agent counts down 4 of its collisions |
| BricksStrategies.StartForEachMainBall | bricks/src/src/brick_strategies/ChangeCameraStrategy.java:69-78 | the loop over the objects present at its start adds one agent per main-ball tag |
| BricksStrategies.StartCountdown | bricks/src/src/brick_strategies/ChangeCameraStrategy.java:71-76 | the camera follows the ball and a new agent is kept and added to the collection |
| BricksStrategies.Tags | bricks/src/src/brick_strategies/ChangeCameraStrategy.java:70 | the tags of the objects, in order |
| BricksStrategies.MainBallsCount | bricks/src/src/brick_strategies/ChangeCameraStrategy.java:69-78 | the number of main-ball entries is the number of main-ball tags |
| BricksStrategies.MainBallsAppend | bricks/src/src/brick_strategies/ChangeCameraStrategy.java:69-78 | the main balls of two lists written together are theirs in order |
| BricksStrategies.PuckVelocityX | bricks/src/src/brick_strategies/PuckStrategy.java:55-61 | a puck moves sideways at 150, to the left exactly when the draw says so |
| BricksStrategies.CreatePucks | bricks/src/src/brick_strategies/PuckStrategy.java:63-81 | three pucks side by side from the brick's corner, each a square of a third of the brick's larger side, falling at 150, which together span that side |
| BricksStrategies.MockPaddleX | bricks/src/src/brick_strategies/AddPaddleStrategy.java:63-71 | the drawn x is kept within the margins, and an x already within them is kept |
| BricksStrategies.CreateMockPaddle | bricks/src/src/brick_strategies/AddPaddleStrategy.java:73-83 | a 100 by 15 mock paddle tagged "paddle" at MockPaddleX and mid-height, disappearing after 3 hits, appended to the collection |
| BricksStrategies.StatusCoefficient | bricks/src/src/brick_strategies/ChangePaddleWidthStrategy.java:59-63 | the coefficient is 2 exactly when the draw says so, and 0.5 otherwise |
| BricksStrategies.CreateStatus | bricks/src/src/brick_strategies/ChangePaddleWidthStrategy.java:56-69 | a 40 by 20 status centred on the brick, falling at 130, resizing "paddle" objects within [20, 620], appended to the collection |
| BricksStrategies.DecoratorEffect | bricks/src/src/brick_strategies/PuckStrategy.java:49-53 | a decorator's own objects are appended to the default layer, none of them tagged "main ball" |
| BricksStrategies.OnlyMainBallAppend | bricks/src/src/brick_strategies/ChangeCameraStrategy.java:74 | adding objects not tagged "main ball" keeps every main-ball tag on the game's ball, so the cast to Ball stays sound |
| BricksStrategies.AddedBeforeRemoval | bricks/src/src/brick_strategies/RemoveBrickStrategyDecorator.java:29-31 | objects a decorator adds before the brick is removed change neither whether it was there nor the static count |
| BricksStrategies.ChainStep | bricks/src/src/brick_strategies/RemoveBrickStrategyDecorator.java:29-31 | the counter-follows-the-static-layer property passes through one decorator |
| BricksStrategies.OnCollision | bricks/src/src/brick_strategies/RemoveBrickStrategy.java:31-35 | along the whole chain: the brick is taken out of the static layer and the counter goes down by one exactly when it was there, so a second hit on a removed brick changes no count |
| BricksStrategies.RemoveBrickCollision | bricks/src/src/brick_strategies/RemoveBrickStrategy.java:31-35 | removes the brick from the static layer and decrements the counter exactly when it was removed |
| BricksStrategies.DecoratedCollision | bricks/src/src/brick_strategies/RemoveBrickStrategyDecorator.java:29-31 | a decorator's effect and then the inner chain's, keeping the counter in step with the static layer |
| BricksStrategies.Brick.constructor | bricks/src/src/gameobjects/Brick.java:27-33 | a new brick increments the brick counter |
| BricksStrategies.Brick.OnCollisionEnter | bricks/src/src/gameobjects/Brick.java:41-45 | the counter goes down exactly when the brick was still in the static layer, and stays in step with it |
| BricksManager.SetBallVelocity | bricks/src/src/BrickerGameManager.java:123-134 | each velocity component is ±150, its sign decided by one draw; nothing else about the ball changes |
| BricksManager.PositionBall | bricks/src/src/BrickerGameManager.java:136-139 | the ball is centred in the window with speed 150 along each axis |
| BricksManager.CreateBall | bricks/src/src/BrickerGameManager.java:141-149 | a 20 by 20 ball tagged "main ball", centred, with no collisions yet, appended to the default layer |
| BricksManager.CreatePaddle | bricks/src/src/BrickerGameManager.java:151-158 | a 100 by 15 paddle tagged "paddle", centred 30 above the bottom, appended to the default layer |
| BricksManager.InStatic | bricks/src/src/BrickerGameManager.java:164 | the bricks' entries in the static layer, in order |
| BricksManager.CreateOneBrick | bricks/src/src/BrickerGameManager.java:160-165 | one brick at the given place with a drawn strategy, counted and appended to the static layer |
| BricksManager.CreateBricksInRow | bricks/src/src/BrickerGameManager.java:167-175 | 8 bricks at BrickX along the row, counted and appended to the static layer; the next row is 22 lower |
| BricksManager.CreateBricks | bricks/src/src/BrickerGameManager.java:177-186 | 5 rows of 8 bricks, each at its grid place, the counter up by 40, and the static layer grown by exactly the 40 bricks |
| BricksManager.CountInStatic | bricks/src/src/BrickerGameManager.java:164 | the bricks added are all counted in the static layer |
| BricksManager.Walls | bricks/src/src/BrickerGameManager.java:188-197 | three walls |
| BricksManager.WallsFrameWindow | bricks/src/src/BrickerGameManager.java:188-197 | the side walls stand at the window's left and right edges with its full height, and the top wall spans its width |
| BricksManager.InDefault | bricks/src/src/BrickerGameManager.java:200 | the walls' entries in the default layer |
| BricksManager.CreateBorders | bricks/src/src/BrickerGameManager.java:188-202 | the three walls are appended to the default layer; the static count stays |
| BricksManager.CreateBackground | bricks/src/src/BrickerGameManager.java:204-209 | a window-sized background appended to the background layer |
| BricksManager.CreateGraphicCounter | bricks/src/src/BrickerGameManager.java:211-219 | a life counter of 4 widgets in the background layer, returning its corner's y |
| BricksManager.BackgroundNotStatic | bricks/src/src/BrickerGameManager.java:217 | background entries add nothing to the static count |
| BricksManager.CreatePlayField | bricks/src/src/BrickerGameManager.java:234-237 | ball, paddle and 40 bricks, with the static layer and the counter grown by 40 |
| BricksManager.CreateScenery | bricks/src/src/BrickerGameManager.java:238-240 | walls, background and life widgets, none of them in the static layer |
| BricksManager.SurvivorsMembers | bricks/src/src/BrickerGameManager.java:243-249 | an entry survives exactly when it was there and has not fallen |
| BricksManager.SurvivorsIdempotent | bricks/src/src/BrickerGameManager.java:243-249 | a second removal of fallen objects changes nothing |
| BricksManager.SurvivorsKeepStatic | bricks/src/src/BrickerGameManager.java:243-249 | removing fallen objects never changes the static layer's count, since bricks never move |
| BricksManager.FallMarks | bricks/src/src/BrickerGameManager.java:245 | marks exactly the default-layer objects, other than the main ball, whose centre is below the window (removeGameObject without a layer removes from the default layer only) |
| BricksManager.Unmarked | bricks/src/src/BrickerGameManager.java:243-249 | keeps only entries that were there and are unmarked |
| BricksManager.SurvivorsAreUnmarked | bricks/src/src/BrickerGameManager.java:243-249 | the loop's marks pick out exactly the survivors |
| BricksManager.RemoveMarked | bricks/src/src/BrickerGameManager.java:243-249 | the loop over the objects removes exactly the marked ones |
| BricksManager.RemoveFallenObjects | bricks/src/src/BrickerGameManager.java:243-249 | the collection keeps exactly the survivors, in order |
| BricksManager.GameEndPrompt | bricks/src/src/BrickerGameManager.java:268-276 | "You win!" exactly when no brick is left, "You lose!" exactly when bricks are left and the ball is below the window, and empty otherwise |
| BricksManager.BrickerGameManager.constructor | bricks/src/src/BrickerGameManager.java:85-97 | 4 lives, the ball tagged "main ball", no camera, 40 bricks counted, and the counter in step with the static layer |
| BricksManager.BrickerGameManager.TreatGameEnd | bricks/src/src/BrickerGameManager.java:259-266 | a life is lost; while lives remain the ball is re-centred with a new velocity, otherwise the play-again dialog opens with the prompt |
| BricksManager.BrickerGameManager.CheckForGameEnd | bricks/src/src/BrickerGameManager.java:268-280 | with no prompt nothing changes; with one the game end is treated |
| BricksManager.BrickerGameManager.Update | bricks/src/src/BrickerGameManager.java:104-108 | fallen objects go and the game end is checked, a life lost exactly when there was a prompt, and the brick counter stays in step with the static layer |
| BricksManager.WinCostsALifePerFrame | bricks/src/src/BrickerGameManager.java:271-272 | with no bricks left the win prompt is given whatever the ball does, so every frame costs a life |
| BricksSolutions.Greedy | bricks/src/algo_questions/Solutions.java:25-32 | the greedy count never exceeds the number of tasks or of slots |
| BricksSolutions.GreedyAchieved | bricks/src/algo_questions/Solutions.java:25-32 | the greedy count over sorted lists is reached by an actual matching of tasks to slots that fit them |
| BricksSolutions.FreeFirst | bricks/src/algo_questions/Solutions.java:28 | when the shortest task fits the shortest slot, some best matching leaves both free for each other |
| BricksSolutions.Exchange | bricks/src/algo_questions/Solutions.java:28-30 | the exchange step: a matching can pair the shortest task with the shortest slot without losing size |
| BricksSolutions.GreedyOptimal | bricks/src/algo_questions/Solutions.java:25-32 | over sorted lists, no matching is larger than the greedy count |
| BricksSolutions.Insert | bricks/src/algo_questions/Solutions.java:23 | insertion keeps the indices and adds one |
| BricksSolutions.InsertSorted | bricks/src/algo_questions/Solutions.java:23 | inserting into a sorted order keeps it sorted |
| BricksSolutions.Order | bricks/src/algo_questions/Solutions.java:23 | the sort's order holds each of the first n indices |
| BricksSolutions.OrderSpec | bricks/src/algo_questions/Solutions.java:23 | the order is sorted by value and holds each index once |
| BricksSolutions.SortedCopy | bricks/src/algo_questions/Solutions.java:19-24 | the copy holds the input's values in the sort's order |
| BricksSolutions.SortedCopySorted | bricks/src/algo_questions/Solutions.java:23-24 | the sorted copy is sorted |
| BricksSolutions.ToSorted | bricks/src/algo_questions/Solutions.java:19-24 | a matching of the inputs is one of the sorted copies of the same size |
| BricksSolutions.FromSorted | bricks/src/algo_questions/Solutions.java:19-24 | a matching of the sorted copies is one of the inputs of the same size |
| BricksSolutions.Matched | bricks/src/algo_questions/Solutions.java:18-34 | the greedy count over the sorted copies is reached by a matching and no matching beats it |
| BricksSolutions.AlotStudyTime | bricks/src/algo_questions/Solutions.java:18-34 | returns the largest number of tasks that can each get their own slot at least as long, and the caller's arrays are not sorted |
| BricksSolutions.FarthestSpec | bricks/src/algo_questions/Solutions.java:50-53 | maxReach is the farthest leaf reachable from the leaves seen so far, reached from one of them |
| BricksSolutions.Further | bricks/src/algo_questions/Solutions.java:50-58 | the reach never shrinks |
| BricksSolutions.ReachMono | bricks/src/algo_questions/Solutions.java:50-58 | more leaps reach at least as far |
| BricksSolutions.ReachStuck | bricks/src/algo_questions/Solutions.java:50-58 | once a leap adds no reach, no later leap does |
| BricksSolutions.PathBound | bricks/src/algo_questions/Solutions.java:43-61 | k leaps never get past the k-leap reach |
| BricksSolutions.PathTo | bricks/src/algo_questions/Solutions.java:43-61 | every leaf within the k-leap reach is reached in at most k leaps |
| BricksSolutions.ReachableGrows | bricks/src/algo_questions/Solutions.java:43-61 | when the last leaf can be reached, each leap short of it adds reach |
| BricksSolutions.LeastLeaps | bricks/src/algo_questions/Solutions.java:43-61 | the first j whose reach covers the last leaf is the least number of leaps to it |
| BricksSolutions.MinLeap | bricks/src/algo_questions/Solutions.java:43-61 | 0 for at most one leaf; otherwise no path to the last leaf has fewer leaps, and when one exists, one has exactly that many |
| BricksSolutions.BucketWalk | bricks/src/algo_questions/Solutions.java:71-82 | returns Ways(n), the number of ways to fill n litres with trips of 1 or 2, for n >= 0, and no result (Java throws) exactly when n is negative |
| BricksSolutions.Prepend | bricks/src/algo_questions/Solutions.java:79 | puts one trip in front of each fill |
| BricksSolutions.PrependFills | bricks/src/algo_questions/Solutions.java:79 | a trip of 1 or 2 in front of a fill of m is a fill of m + x |
| BricksSolutions.FillsCount | bricks/src/algo_questions/Solutions.java:71-82 | there are exactly Ways(n) listed fills of n |
| BricksSolutions.FillsAreFills | bricks/src/algo_questions/Solutions.java:71-82 | each listed fill is a sequence of trips of 1 or 2 totalling n |
| BricksSolutions.FillsDistinct | bricks/src/algo_questions/Solutions.java:71-82 | no fill is listed twice |
| BricksSolutions.RestFills | bricks/src/algo_questions/Solutions.java:79 | after its first trip, a fill of n is a fill of what remains |
| BricksSolutions.FillsComplete | bricks/src/algo_questions/Solutions.java:71-82 | every fill of n is listed, so Ways(n) counts all of them |
| BricksSolutions.NumTrees | bricks/src/algo_questions/Solutions.java:90-100 | returns Catalan(n), the number of tree shapes with n nodes |
| BricksSolutions.PairsSpec | bricks/src/algo_questions/Solutions.java:96 | pairing left and right subtrees gives |ls| times |rs| distinct trees |
| BricksSolutions.ShapesCount | bricks/src/algo_questions/Solutions.java:90-100 | there are exactly Catalan(n) listed shapes with n nodes |
| BricksSolutions.SplitCount | bricks/src/algo_questions/Solutions.java:95-97 | the shapes whose left subtree has fewer than j nodes number CatalanSum(n, j) |
| BricksSolutions.ShapesSizes | bricks/src/algo_questions/Solutions.java:90-100 | every listed shape has n nodes |
| BricksSolutions.SplitSizes | bricks/src/algo_questions/Solutions.java:95-97 | the split shapes have n nodes and a left subtree under j |
| BricksSolutions.ShapesDistinct | bricks/src/algo_questions/Solutions.java:90-100 | no shape is listed twice |
| BricksSolutions.ShapesComplete | bricks/src/algo_questions/Solutions.java:90-100 | every tree shape is listed under its size, so Catalan(n) counts all of them |
| ChatBot.OccursIffContains | chatbot/ChatterBot.java:87 | a non-empty placeholder occurs in a pattern (the count of replaced occurrences is positive) iff the pattern contains it |
| ChatBot.ReplaceAllLength | chatbot/ChatterBot.java:87 | replacing every occurrence changes the length by the number of occurrences times the length difference |
| ChatBot.ReplaceAllAbsent | chatbot/ChatterBot.java:87 | a pattern without the placeholder is returned unchanged |
| ChatBot.ReplaceAllBySelf | chatbot/ChatterBot.java:87 | replacing the placeholder by itself returns the pattern unchanged |
| ChatBot.ReplaceFirstPrefix | chatbot/ChatterBot.java:98 | removing the first "say " from a legal request leaves exactly the text after the prefix |
| ChatBot.ReplacePlaceholderInARandomPattern | chatbot/ChatterBot.java:83-88 | with no patterns there is no reply (nextInt(0) throws); otherwise the reply is some pattern of the list with every placeholder replaced |
| ChatBot.Chosen | chatbot/ChatterBot.java:85 | the random index lies within the list, and every index of the list can be drawn |
| ChatBot.ReplyTo | chatbot/ChatterBot.java:68-112 | a statement starting with "say " gets a legal-request pattern with "<phrase>" replaced by the text after the prefix; any other statement gets an illegal-request pattern with "<request>" replaced by the whole statement |
| ChatBot.PatternWithoutPlaceholder | chatbot/ChatterBot.java:96-101 | a chosen legal pattern without "<phrase>" is the reply as it stands |
| ChatBot.ChatterBot.constructor | chatbot/ChatterBot.java:41-51 | the bot keeps the name and fresh copies of both reply lists, element by element |
| ChatBot.ChatterBot.GetName | chatbot/ChatterBot.java:57-59 | the bot's name is the one it was built with |
| ChatBot.ChatterBot.Reply | chatbot/ChatterBot.java:68-73 | the bot answers from its own copies of the reply lists |
| ChatBot.CallerEditAfterConstruction | chatbot/ChatterBot.java:43-50 | a caller that edits its array after building the bot does not change the bot's replies |
| Util.JavaDiv | tic_tac_toe/HumanPlayer.java:30 | Java's quotient: equal to the Euclidean one for a non-negative dividend and a positive divisor, and rounded toward zero otherwise |
| Util.JavaRem | tic_tac_toe/HumanPlayer.java:31 | Java's remainder: dividend = divisor * quotient + remainder, with the remainder taking the dividend's sign and smaller than the divisor in size |
| Oracle.NextInt | chatbot/ChatterBot.java:85 | a draw below the bound, and every value below the bound is a possible draw |

## Left out

- Rendering, sounds, images, the camera's framing, `Transition`/`ScheduledTask` timing, engine physics and collision detection. A collision is a method call on the object that was hit.
- Which objects the engine's collision detection brings together is not modelled: `shouldCollideWith` is a predicate, and no collision is generated from it.
- Floating point: Java `float`/`double` values are `real`, so rounding is not modelled. The infinity or NaN of the `linearStretching` bug is the `None` of `AsciiMatcher.StretchAsWritten` (see Findings).
- `getGreyPixel` is kept as a function, but `CharRenderer.getOneCharBrightness` and `Image.squareSubImagesOfSize` are parameters: a brightness function and a sequence of tiles.
- `PerlinNoise` is an abstract pure function `real -> real`, applied to x / 30 and scaled by the height at x = 0 as in `groundHeightAt`; the noise generator itself is not modelled, and the coordinate-seeded `Random`s of the terrain and trees are oracle functions of the coordinates.
- `java.util.Random` is a stream of raw draws. `Oracle.NextInt` reduces a draw modulo the bound, so every value in range can be drawn. Several `Random` instances share one stream, with the position of the next unused draw passed along.
- Java `int` overflow is not modelled: `bucketWalk`, `numTrees`, the tournament tallies and "res up" doubling use unbounded integers.
- I/O is not modelled: `Shell.run`'s Scanner loop, `showChars`, `render`, `Driver`, the `Chat` loop, `Tournament.printResults`, the renderers, and the console reads of `HumanPlayer`. Those reads are a sequence of numbers already parsed.
- The Sun, Night, SunHalo, Sky and EnergyCounter of Pepse, and NumericLifeCounter of Bricker, are display setup and not modelled.
- The game-end dialog's answer, and the reset or closing of the window that follows it, are not modelled. `TreatGameEnd` returns the dialog's prompt.
- Removal during iteration is modelled as a filter over a snapshot of the collection. This follows the engine, which defers removals to the end of the frame.
- AsciiShell.Shell.HandleInput: one pass of `Shell.run`'s do-while loop, over a line already split into words; the loop itself, which reads the console until "exit", is not modelled.
- AsciiShell.Shell.constructor: requires a positive image height, since Java's `width / height` throws on zero.
- TicTacToePlayers.Player.CleverTurn, WhateverTurn and HumanTurn: the retry loops end only if some draw, or some input, selects a legal cell. A ghost precondition (`Fair`) states this, because the Java loops do not terminate otherwise.
- TicTacToeGame.Game.Run: the loop invariant keeps the move-count difference equal to the turn parity, and the contract promises only the final board's winner and the X/O count relation. The sequence of individual moves is not stated.
- TicTacToeTournament: `Integer.parseInt` is a parameter.
- PepseManager.World.GetAvatarTopLeftCorner: requires that some draw gives a column without a tree, since the Java loop runs until it finds one. The x lies in (lower - 30, upper), not in [lower, upper), because the candidate is rounded down to the block grid.
- BricksSolutions.MinLeap: when the last leaf cannot be reached, only the lower bound is stated. The Java result is then not the answer to any question.
- BricksSolutions.NumTrees: requires n >= 1, because Java's `numTrees(0)` writes `result[1]` of a one-element array and throws.
- ChatBot.ReplyTo: `String.replaceAll`/`replaceFirst` are literal replacements. The regular-expression meaning of '$' and '\' in a replacement, and of special characters in the placeholder, is not modelled.
- PepseLeaf: the fade-out callback is the method `FadeOutFinished`, and scheduled tasks and transitions are recorded as data.

## Findings

| source | as written | input that shows it | evidently intended | confidence | as-written member | corrected member |
|---|---|---|---|---|---|---|
| ascii_art/src/ascii_art/img_to_char/BrightnessImgCharMatcher.java:120-129 | when the least and greatest brightness are equal, the 0 stored at line 125 is overwritten at line 127 by (0 - min) / (max - min), a division by zero that gives an infinity or NaN | a one-character set, brightness array [0.5] | every brightness becomes 0 when all are equal | not executed | AsciiMatcher.StretchOneCharacter | AsciiMatcher.LinearStretching |
