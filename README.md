# Pacman game logic and DQN trainer bookkeeping, in Dafny

This project models the discrete logic of a Pacman game used to train a
deep Q-network (DQN) agent. It covers seven parts:

- the maze parser and its visibility matrix (`layout.py`);
- keyboard move selection (`keyboardAgents.py`);
- the text display's turn counter (`textDisplay.py`);
- the colour, arc, key and click helpers of the Tk layer (`graphicsUtils.py`);
- the ghosts' action distributions (`ghostAgents.py`);
- the trainer's step counter, checkpoint loading, Bellman target, action
  selection and loss (`DQN_PyTorch.py`);
- the decision rules of the graphical display (`graphicsDisplay.py`).

Each source file is one module:

| module | file | form |
|---|---|---|
| `Layout`, with the pure `LayoutText` and `Visibility` | `layout.dfy`, `layout_text.dfy`, `visibility.dfy` | class `Layout` with loops over the text; the cache is a class holding a map |
| `KeyboardAgents` | `keyboard_agents.dfy` | class `KeyboardAgent`, with `GetMove` as a function |
| `TextDisplay` | `text_display.dfy` | classes `PacmanGraphics` and `NullGraphics` |
| `GraphicsUtils` | `graphics_utils.dfy` | colour functions; classes `KeyState` and `ClickState` for the module-wide key and click state |
| `GhostAgents` | `ghost_agents.dfy` | functions for distances and best actions; loop methods that fill the `Counter` |
| `Dqn` | `dqn.dfy` | class `DQN` with its parameters and step counter; the training arithmetic as functions over `real` |
| `GraphicsDisplay` | `graphics_display.dfy` | pure rules; loop methods `DrawWalls` and `DrawFood`; classes `InfoPane` and `PacmanGraphics` |

`Game` (`game.dfy`) gives minimal meanings to collaborators that are not part of this model:

- directions;
- the `[x][y]` grid;
- the Manhattan distance;
- `directionToVector`.

`Options` (`options.dfy`) holds the `Option` type.

Python exceptions are modelled as an explicit error result:

- a `None` result, or an `ok` flag that is false with the state left unchanged;
- this covers a modulo by zero agents, `max` of an empty list, an out-of-range agent index and the sixth ghost colour.

Randomness (`random.choice`, `util.sample`) becomes a `pick` parameter. The network and the optimiser become an uninterpreted function and a given result.

## Model

| member | source | states |
|---|---|---|
| `Game.EmptyGrid` | layout.py:25-26 | A fresh `Grid(width, height, False)` has the given shape and no cell set |
| `LayoutText.CharGrid` | layout.py:152-157 | The grid of character c is width x height; cell (x, y) is set iff line height-1-y holds c at column x |
| `LayoutText.ScanPrefixMembers` | layout.py:154-155 | The nested loop visits exactly the rows below y, plus the cells of row y left of x |
| `LayoutText.ScanPrefixOrdered` | layout.py:154-155 | The visiting order is strictly increasing in (y, x): rows bottom to top, each left to right |
| `LayoutText.SelectFilters` | layout.py:174-175 | Selecting cells by character keeps exactly the cells holding those characters, in visiting order |
| `LayoutText.AgentId` | layout.py:177-186 | 'P' has id 0; 'G' and '1'-'4' have ids 1-4; every other character has no id |
| `LayoutText.AgentsCount` | layout.py:177-186 | There are as many agent entries as 'P' cells plus ghost cells |
| `LayoutText.AgentsIds` | layout.py:177-186 | Each agent entry sits on a visited cell, has an id from 0 to 4, and has id 0 exactly for a 'P' cell |
| `LayoutText.Insert` | layout.py:160 | Inserting into a sorted list of entries keeps it sorted by (id, position) and adds exactly that entry |
| `LayoutText.Sort` | layout.py:160 | `agentPositions.sort()` gives a sorted permutation of the entries |
| `LayoutText.Flagged` | layout.py:163 | Each (id, pos) becomes (id == 0, pos), in the same order |
| `LayoutText.AgentPositionsShape` | layout.py:159-163 | The final agent list has one entry per 'P' and ghost cell. Pacman's entries (flag true) come before every ghost entry, and each flag is true iff the cell holds 'P' |
| `Layout.FirstFarthest` | layout.py:124 | `max` with a key returns the first element of maximal Manhattan distance |
| `Layout.Layout.constructor` | layout.py:21-34 | Width is the first line's length and height the number of lines. Walls, food, capsules, agents, ghost count and totalFood are what the text means (`Valid`), and there is no visibility matrix yet |
| `Layout.NewLayout` | layout.py:21-34 | `Layout(text)` fails (None) exactly when the text is empty or has a line shorter than the first, the cases where Python raises IndexError. Otherwise it gives a fresh, fully parsed layout with no visibility matrix |
| `Layout.TrailingBlankLineFails` | layout.py:212-219 | Lines ending in an empty line, as `tryToLoad` produces for a file ending in a blank line, do not make a layout when the first line is non-empty |
| `Layout.Layout.ProcessLayoutChar` | layout.py:165-186 | '%' sets one wall bit and '.' one food bit; 'o' appends a capsule; 'P', 'G' and '1'-'4' append an (id, cell) entry, and ghosts add 1 to numGhosts. Any other character changes nothing |
| `Layout.Layout.ProcessLayoutText` | layout.py:140-163 | Starting from the empty fields `__init__` creates, after the nested loop the grids are the character grids. Capsules and agent entries are selected in visiting order, numGhosts counts 'G' and '1'-'4', and agentPositions is the sorted, flagged agent list |
| `Layout.Layout.ParseRows` | layout.py:154-157 | The outer loop leaves every row parsed: the state is what the whole scan means |
| `Layout.Layout.ParseRow` | layout.py:155-157 | The inner loop over row y extends the parsed prefix from the start of row y to the start of row y + 1 |
| `Layout.NothingParsed` | layout.py:21-32 | The empty grids and lists `__init__` creates are the meaning of the empty scan prefix |
| `Layout.CellParsed` | layout.py:156-157 | Applying cell (x, y)'s character to the meaning of the cells before it gives the meaning of the prefix through (x, y) |
| `Layout.AllParsed` | layout.py:152-157 | The meaning of the full scan is the character grids, the 'o' cells and the agent cells in visiting order, and the ghost count |
| `Layout.Layout.ParseCell` | layout.py:156-157 | Processing cell (x, y) with its character extends the parsed prefix by that cell |
| `Layout.Layout.CountFood` | layout.py:34 | `len(food.asList())` counts the food cells: the number of '.' characters |
| `Layout.Layout.GetNumGhosts` | layout.py:36-37 | The ghost count is the number of 'G' and '1'-'4' characters |
| `Layout.Layout.IsWall` | layout.py:94-96 | An on-board cell is a wall iff its character is '%' |
| `Layout.Layout.GetFurthestCorner` | layout.py:116-124 | The result is one of the four inner corners at maximal Manhattan distance from Pacman, the first in list order on ties |
| `Layout.Layout.IsVisibleFrom` | layout.py:126-129 | The ghost is visible iff its point is in the visible set of the truncated Pacman cell in that direction |
| `Layout.Layout.InitializeVisibilityMatrix` | layout.py:42-89 | As written: a text whose concatenated lines are already cached reuses the cached matrix and leaves the cache alone. Otherwise the matrix is built from the walls and cached under that key |
| `Layout.Layout.InitializeVisibilityMatrixByLines` | layout.py:42-89 | With the cache keyed by the lines, the layout always ends up with its own walls' matrix, and the cache stays consistent |
| `Layout.CacheKeyCollision` | layout.py:48 | The 2x2 maze ["%%","%%"] and the 4x1 maze ["%%%%"] share the key "%%%%" although their matrices differ |
| `Layout.LinesKeyFaithful` | layout.py:86-89 | In a cache keyed by the lines, a layout's entry is its own visibility matrix |
| `Layout.CapsulesInScanOrder` | layout.py:174-175 | The capsules are exactly the 'o' cells, in strictly increasing (y, x) order |
| `Layout.FoodCounted` | layout.py:34 | totalFood is the number of '.' cells, and the food grid marks exactly those |
| `Layout.GhostsCounted` | layout.py:177-186 | numGhosts plus the number of 'P' cells is the number of agent positions, and Pacman's entries come first |
| `Visibility.Trunc2` | layout.py:75 | `int()` of a half-step coordinate truncates toward zero, so int(-0.5) == 0 |
| `Visibility.RayShape` | layout.py:74-84 | A ray records p, p+s, p+2s, ... in order, and every recorded point truncates to an open on-board cell. The point after the last one is off the board or in a wall |
| `Visibility.VisSpec` | layout.py:57-64 | The matrix has a key for every cell and each of the five directions |
| `Visibility.KeysMembers` | layout.py:57-64 | A key (x, y, d) is in the matrix iff (x, y) is on the board |
| `Visibility.FirstHalfStepVisible` | layout.py:70-81 | From an open cell, the South and East rays always record their first half step |
| `Visibility.EdgePointsVisible` | layout.py:75-81 | On column 0 the North ray records (-0.5, y), and on row 0 the West ray records (x, -0.5), because int(-0.5) is 0 |
| `Visibility.CastRay` | layout.py:70-84 | The inner while loop adds exactly the visible set of the cell in that direction |
| `Visibility.FillCell` | layout.py:68-84 | A wall cell gets no rays; an open cell gets its four rays; no other key changes |
| `Visibility.BuildVisibility` | layout.py:57-86 | The nested loops build exactly the visibility matrix of the walls |
| `KeyboardAgents.GetMove` | keyboardAgents.py:55-66 | The move is STOP or legal. South wins when eligible, then North, then East, then West, and STOP when none is eligible |
| `KeyboardAgents.GetMoveDependsOnMoveKeys` | keyboardAgents.py:58-65 | Two key lists asking for the same directions give the same move |
| `KeyboardAgents.ArrowsOnlyForPrimary` | keyboardAgents.py:81-91 | KeyboardAgent2 ignores the arrow keys, while KeyboardAgent moves West on 'Left' |
| `KeyboardAgents.ChooseMove` | keyboardAgents.py:38-50 | The move is always legal. The stop key forces STOP when STOP is legal, a non-STOP getMove result stands, and otherwise a legal lastMove is kept |
| `KeyboardAgents.KeepsGoing` | keyboardAgents.py:41-42 | With no key down the agent keeps its last move while that move is legal |
| `KeyboardAgents.KeyboardAgent.constructor` | keyboardAgents.py:18-23 | A new agent has lastMove STOP and no keys |
| `KeyboardAgents.KeyboardAgent.GetAction` | keyboardAgents.py:25-53 | New keys replace the stored ones, and an empty read keeps them. With legal moves the result is the chosen move, which also becomes lastMove. With none, random.choice raises: no move |
| `TextDisplay.Step` | textDisplay.py:74-79 | The agent counter stays in [0, numAgents), and the turn grows by exactly 1 when the counter wraps to 0 |
| `TextDisplay.RunAdditive` | textDisplay.py:68-79 | Running a + b updates is running a, then b |
| `TextDisplay.FinishRound` | textDisplay.py:75-79 | From counter c, numAgents - c updates reach the next turn with the counter at 0 |
| `TextDisplay.RoundsFromStart` | textDisplay.py:61-79 | After initialize, k * numAgents updates leave turn == k and the counter at 0 |
| `TextDisplay.DrawsOf` | textDisplay.py:78-92 | One update draws at most twice. A win or loss always draws, and without a wrap it draws only then |
| `TextDisplay.EveryWrapDraws` | textDisplay.py:86-88 | With DRAW_EVERY = 1 every wrap draws |
| `TextDisplay.Settings.constructor` | textDisplay.py:5 | SLEEP_TIME starts at 0 |
| `TextDisplay.PacmanGraphics.constructor` | textDisplay.py:45-52 | A given speed overwrites SLEEP_TIME and None leaves it; both counters start at 0 |
| `TextDisplay.PacmanGraphics.Initialize` | textDisplay.py:61-66 | initialize draws once and resets turn and agentCounter to 0 |
| `TextDisplay.PacmanGraphics.Update` | textDisplay.py:68-92 | The counters take one `Step`, and the draws those rules give are added. With no agents the modulo raises and nothing changes |
| `TextDisplay.NullGraphics.CheckNullDisplay` | textDisplay.py:22-23 | The null display reports itself as null |
| `GraphicsUtils.Trunc` | graphicsUtils.py:32 | `int()` of a float truncates toward zero |
| `GraphicsUtils.HexDigit` | graphicsUtils.py:32 | A value 0-15 becomes one lowercase hex digit |
| `GraphicsUtils.DigitValue` | graphicsUtils.py:37 | Reading a lowercase hex digit gives back its value, and every digit read lies in 0-15 |
| `GraphicsUtils.DigitValueOfHexDigit` | graphicsUtils.py:32-37 | Reading a written digit gives back its value |
| `GraphicsUtils.Hex` | graphicsUtils.py:32 | The hex text of n is non-empty lowercase hex, one digit below 16 |
| `GraphicsUtils.Hex02` | graphicsUtils.py:32 | `:02x` has at least two digits, and exactly HexPair for a byte |
| `GraphicsUtils.ByteRange` | graphicsUtils.py:32 | For c in [0, 1], int(c*255) is a byte and equals the floor of c*255 |
| `GraphicsUtils.EncodeBytes` | graphicsUtils.py:32 | Three bytes give '#' plus three two-digit lowercase hex pairs, one per byte |
| `GraphicsUtils.FormatColor` | graphicsUtils.py:30-32 | formatColor starts with '#'. For components in [0, 1] it is the encoding of the bytes floor(c*255) |
| `GraphicsUtils.Slice` | graphicsUtils.py:37 | Python slicing never yields more than j - i characters |
| `GraphicsUtils.DigitsValue` | graphicsUtils.py:37 | A hex digit string has a value iff it is non-empty and all its characters are digits; two digits give less than 256 |
| `GraphicsUtils.ParseHex` | graphicsUtils.py:37-39 | `int(s, 16)` of up to two characters fails on an empty string, and otherwise lies in [-15, 255] |
| `GraphicsUtils.ParseHexCases` | graphicsUtils.py:37-39 | The value of `int(s, 16)` for each input of up to two characters: one digit; two digits (16a + b); a sign then a digit (±d); a digit with a space before or after it (d). Every other input raises (None) |
| `GraphicsUtils.ColorToVector` | graphicsUtils.py:35-39 | A decoded colour has three components, each in (-1, 1) |
| `GraphicsUtils.ParseHexPair` | graphicsUtils.py:37 | Two hex digits parse to 16 times the first plus the second |
| `GraphicsUtils.HexPairDecodes` | graphicsUtils.py:32-39 | Each byte's two-digit hex parses back to the byte |
| `GraphicsUtils.SlicesOfEncoding` | graphicsUtils.py:32-39 | Slices [1:3], [3:5] and [5:7] of an encoding are the three pairs |
| `GraphicsUtils.EncodingParses` | graphicsUtils.py:32-39 | Each slice of an encoding parses to its byte |
| `GraphicsUtils.BytesRoundTrip` | graphicsUtils.py:32-39 | Decoding an encoding gives each byte divided by 256 |
| `GraphicsUtils.ColorStringIsEncoding` | graphicsUtils.py:32-39 | Every '#rrggbb' string is the encoding of its three pairs |
| `GraphicsUtils.ByteAfterDecode` | graphicsUtils.py:32-39 | int(n/256*255) is n - 1 for n > 0, but int(n/255*255) is n |
| `GraphicsUtils.DecodeAsWritten` | graphicsUtils.py:35-39 | colorToVector of a colour string divides each pair by 256 |
| `GraphicsUtils.FormatBytesBy256` | graphicsUtils.py:30-39 | Re-encoding bytes divided by 256 darkens every non-zero byte by one |
| `GraphicsUtils.WhiteDarkensOnRoundTrip` | graphicsUtils.py:30-39 | "#ffffff" decodes to 255/256 per component, and re-encodes to "#fefefe" |
| `GraphicsUtils.ColorToVectorBy255` | graphicsUtils.py:35-39 | The decoder with 255 also yields three components |
| `GraphicsUtils.FormatBytesBy255` | graphicsUtils.py:30-39 | Re-encoding bytes divided by 255 gives the same encoding |
| `GraphicsUtils.FormatPairsBy255` | graphicsUtils.py:30-39 | Re-encoding a colour string's pairs divided by 255 gives the string back |
| `GraphicsUtils.DecodeBy255` | graphicsUtils.py:35-39 | The decoder with 255 divides each pair by 255 |
| `GraphicsUtils.DecodeEncodeBy255` | graphicsUtils.py:30-39 | With 255, decode then encode is the identity on colour strings |
| `GraphicsUtils.RoundTripOfBytes` | graphicsUtils.py:30-39 | With 255, encoding three bytes, decoding and formatting the components gives the same encoding back |
| `GraphicsUtils.NormalizeEndpoints` | graphicsUtils.py:150-155 | Without endpoints, the arc runs from 0 to 359. Otherwise start is kept and end grows by whole turns of 360 until start <= end, so a wrapped arc spans less than 360 degrees (also graphicsUtils.py:231-236) |
| `GraphicsUtils.AddKey` | graphicsUtils.py:253-254 | Setting a dict key adds it once, without duplicates |
| `GraphicsUtils.RemoveKey` | graphicsUtils.py:260 | `pop(k, None)` removes k, and nothing else |
| `GraphicsUtils.KeyState.constructor` | graphicsUtils.py:17-19 | No key is held or waiting, and no release is pending |
| `GraphicsUtils.KeyState.KeyPress` | graphicsUtils.py:251-255 | A press adds the key to both the held and the waiting keys, and clears the release flag |
| `GraphicsUtils.KeyState.KeyRelease` | graphicsUtils.py:258-261 | A release removes the key from the held keys only, and sets the flag |
| `GraphicsUtils.KeyState.ClearKeys` | graphicsUtils.py:264-268 | Both key sets are emptied and the flag cleared |
| `GraphicsUtils.KeyState.KeysWaiting` | graphicsUtils.py:280-285 | Returns the waiting keys and leaves none waiting |
| `GraphicsUtils.KeyState.KeysPressed` | graphicsUtils.py:271-277 | Returns the held keys |
| `GraphicsUtils.TapStillWaiting` | graphicsUtils.py:251-261 | A key pressed and released stays waiting but is no longer held, and the other held keys are unaffected |
| `GraphicsUtils.ClickState.constructor` | graphicsUtils.py:21-23 | No click is stored |
| `GraphicsUtils.ClickState.LeftClick` | graphicsUtils.py:301-303 | Stores the left-click location |
| `GraphicsUtils.ClickState.RightClick` | graphicsUtils.py:306-308 | Stores the right-click location |
| `GraphicsUtils.ClickState.CtrlLeftClick` | graphicsUtils.py:311-313 | Stores the ctrl-left-click location |
| `GraphicsUtils.ClickState.PollClick` | graphicsUtils.py:319-331 | Left goes before right, and right before ctrl-left. Only the slot returned is cleared, and nothing is returned when no click is stored |
| `GhostAgents.Normalize` | ghostAgents.py:44 | Normalizing keeps the keys and divides each weight by the total; a zero total leaves the counter alone |
| `GhostAgents.NormalizeSumsToOne` | ghostAgents.py:44 | A normalized counter with a non-zero total sums to 1 |
| `GhostAgents.NormalizeOfUnit` | ghostAgents.py:104 | Normalizing weights that already sum to 1 changes nothing |
| `GhostAgents.GetAction` | ghostAgents.py:17-24 | An empty distribution gives STOP, and otherwise the sampled action is a key |
| `GhostAgents.Ones` | ghostAgents.py:41-43 | The counter has exactly the legal actions as keys |
| `GhostAgents.RandomDistribution` | ghostAgents.py:39-45 | The loop builds the normalized all-ones counter over the legal actions |
| `GhostAgents.RandomIsUniform` | ghostAgents.py:39-45 | The random ghost weights exactly the legal actions, all equally, summing to 1. With none legal, getAction gives STOP |
| `GhostAgents.Distances` | ghostAgents.py:65-75 | One distance per legal action: the Manhattan distance from the moved position to Pacman |
| `GhostAgents.Max` | ghostAgents.py:79 | `max` returns an element that no other exceeds |
| `GhostAgents.Min` | ghostAgents.py:82 | `min` returns an element that no other undercuts |
| `GhostAgents.BestIndices` | ghostAgents.py:86-89 | The indices holding the best score, increasing, and all of them |
| `GhostAgents.BestActions` | ghostAgents.py:86-89 | bestActions are the legal actions at those indices, in order |
| `GhostAgents.BestScoreExtreme` | ghostAgents.py:77-83 | A scared ghost's best score is the largest distance, and otherwise the smallest |
| `GhostAgents.BestActionsShape` | ghostAgents.py:86-89 | With legal actions, bestActions is non-empty, legal, and without duplicates when legal has none |
| `GhostAgents.DirectionalDistribution` | ghostAgents.py:60-105 | No legal action is an error (min or max of an empty list). Otherwise the loops yield the normalized weights: best actions share chooseProb, and every legal action gets an equal share of the rest |
| `GhostAgents.AssignBest` | ghostAgents.py:95-97 | The first loop gives each best action chooseProb/bestCount and nothing else |
| `GhostAgents.AddEachKeys` | ghostAgents.py:101-102 | Adding to each listed action keeps the old keys and adds the listed ones |
| `GhostAgents.AddEachCounts` | ghostAgents.py:101-102 | Each action's weight grows by the share once per occurrence in the list |
| `GhostAgents.SpreadRemaining` | ghostAgents.py:99-102 | The second loop adds remainProb to every legal action |
| `GhostAgents.SpreadOverBest` | ghostAgents.py:95-102 | Both loops together give the weights of `Weights` |
| `GhostAgents.WeightsOfDistinct` | ghostAgents.py:95-102 | Over distinct legal actions, an action's weight is chooseProb/|best| if it is best, plus (1-chooseProb)/|legal| if it is legal |
| `GhostAgents.WeightsTotal` | ghostAgents.py:95-102 | The weights sum to 1 before normalizing |
| `GhostAgents.WeightsShape` | ghostAgents.py:95-104 | A best action gets chooseProb/|best| + (1-chooseProb)/|legal| and any other legal action (1-chooseProb)/|legal|. Nothing else has weight, the total is 1, and normalize changes nothing |
| `GhostAgents.DirectionalSumsToOne` | ghostAgents.py:60-104 | For distinct legal actions, the directional ghost's weights have exactly the legal keys and sum to 1, so normalizing does not change them |
| `Dqn.Split` | DQN_PyTorch.py:64 | `split('_')` gives at least one field, none containing '_', and joining them gives the path back |
| `Dqn.SplitAppend` | DQN_PyTorch.py:64 | Splitting s + "_" + t adds t as the last field |
| `Dqn.Strip` | DQN_PyTorch.py:65 | `int()` ignores surrounding whitespace: the stripped text is no longer and has no whitespace at either end |
| `Dqn.ParseDigits` | DQN_PyTorch.py:65 | A digit string has a value iff it is non-empty and all digits |
| `Dqn.ParseInt` | DQN_PyTorch.py:65 | `int()` of a blank string fails, and a negative result needs a '-' sign |
| `Dqn.ParseNatToString` | DQN_PyTorch.py:65 | `int()` reads back the decimal text of any natural number |
| `Dqn.StepFromPath` | DQN_PyTorch.py:63-65 | A path without '_' has no second-to-last field and gives no step |
| `Dqn.StepOfCheckpointName` | DQN_PyTorch.py:63-65 | A path prefix_<step>_<suffix> gives that step |
| `Dqn.ExampleCheckpointName` | DQN_PyTorch.py:63 | 'model-smallGrid_10000_100' gives 10000 |
| `Dqn.Load` | DQN_PyTorch.py:56-70 | Without a load file, without the file, or if loading fails: the initial parameters at step 0. After a load: the loaded parameters, and the step is `int()` of the name's second-to-last field, or 0 when there is no such field or `int()` rejects it |
| `Dqn.ResumeFromCheckpoint` | DQN_PyTorch.py:56-66 | Loading a well-named checkpoint resumes at the step in its name |
| `Dqn.UnnamedCheckpointRestarts` | DQN_PyTorch.py:60-68 | A loaded file without a step field keeps the loaded parameters but stays at step 0 |
| `Dqn.NonNumericStepRestarts` | DQN_PyTorch.py:60-68 | A second-to-last field that `int()` rejects gives no step. The exception is caught after the parameters were replaced, so the loaded parameters are kept at step 0 |
| `Dqn.ExampleNonNumericStep` | DQN_PyTorch.py:60-68 | 'model_abc_100' loads its parameters and starts at step 0 |
| `Dqn.MaxQ` | DQN_PyTorch.py:119 | `torch.max` over the actions is a value no action exceeds |
| `Dqn.Target` | DQN_PyTorch.py:119-123 | The target is r when terminal, and r + discount * max q_next otherwise. With a non-negative discount it is at least r + discount * q for every action |
| `Dqn.OneHot` | DQN_PyTorch.py:131-133 | The one-hot vector has 1 at k and 0 elsewhere |
| `Dqn.OneHotSelects` | DQN_PyTorch.py:133 | The sum of q times a one-hot vector is q[k] |
| `Dqn.ZeroDot` | DQN_PyTorch.py:131-133 | The zero vector selects 0 |
| `Dqn.Predictions` | DQN_PyTorch.py:128-133 | One prediction per transition: its action's Q-value |
| `Dqn.Targets` | DQN_PyTorch.py:115-123 | One target per transition, from its reward, terminal flag and next state |
| `Dqn.SumSquaresPositive` | DQN_PyTorch.py:138 | The sum of squared errors is non-negative, and positive iff some prediction misses its target |
| `Dqn.SumSquaresVanishes` | DQN_PyTorch.py:138 | The sum of squared errors is zero iff every prediction equals its target |
| `Dqn.Mse` | DQN_PyTorch.py:138 | The loss of an empty batch is undefined (NaN) |
| `Dqn.MseVanishes` | DQN_PyTorch.py:138 | The loss is non-negative, and zero iff every prediction equals its target |
| `Dqn.TerminalRewardsFitExactly` | DQN_PyTorch.py:119-138 | A batch of terminal transitions whose predictions equal their rewards has loss 0 |
| `Dqn.DQN.constructor` | DQN_PyTorch.py:56-70 | The trainer starts in the parameters and step that `Load` gives |
| `Dqn.DQN.TrainStep` | DQN_PyTorch.py:91-146 | The loss is computed on the old parameters, the parameters become the optimiser's, and the step grows by exactly 1 and is returned |
| `Dqn.DQN.SaveCkpt` | DQN_PyTorch.py:148-151 | Writes out the current parameters and changes nothing |
| `Dqn.TrainFromScratch` | DQN_PyTorch.py:145-146 | k training steps from a fresh trainer reach step k |
| `GraphicsDisplay.IsWall` | graphicsDisplay.py:523-529 | Off the board it is false, and on the board it is the stored wall bit |
| `GraphicsDisplay.ScreenRoundTrip` | graphicsDisplay.py:418-423 | to_screen maps (x, y) to ((x+1)*gridSize, (height-y)*gridSize), which is invertible for a positive grid size |
| `GraphicsDisplay.ScreenFlipsRows` | graphicsDisplay.py:418-423 | A higher row is drawn at a smaller screen y |
| `GraphicsDisplay.GetPosition` | graphicsDisplay.py:405-408 | Gives the configured position, or (-1000, -1000) without a configuration |
| `GraphicsDisplay.GetDirection` | graphicsDisplay.py:410-413 | Gives the configured direction, or STOP without a configuration |
| `GraphicsDisplay.UnplacedAgentOffBoard` | graphicsDisplay.py:405-413 | An agent without configuration is on no board cell and faces STOP |
| `GraphicsDisplay.Pieces` | graphicsDisplay.py:455-470 | A quadrant gets at most one piece, and none exactly when the vertical, horizontal and diagonal neighbours are all walls |
| `GraphicsDisplay.PiecesTable` | graphicsDisplay.py:455-470 | Both orthogonal neighbours open: an arc. Only one a wall: the line along that one. Both walls and the diagonal open: an inner corner |
| `GraphicsDisplay.WallPaint` | graphicsDisplay.py:431-436 | In capture mode a wall column is team 0 iff 2x < width and team 1 otherwise; outside capture mode it has the wall colour |
| `GraphicsDisplay.FoodPaint` | graphicsDisplay.py:534-539 | In capture mode a food column is team 0 iff 2x <= width and team 1 otherwise; outside capture mode it has the food colour |
| `GraphicsDisplay.TeamsSplitAtMiddle` | graphicsDisplay.py:433-436 | Walls and food disagree on exactly the middle column 2x == width: walls go to team 1 and food to team 0 (food rule at graphicsDisplay.py:536-539) |
| `GraphicsDisplay.CellDraw` | graphicsDisplay.py:441-453 | A wall cell is drawn at its own position, in the colour of its column |
| `GraphicsDisplay.IsolatedWallIsRound` | graphicsDisplay.py:445-521 | A wall with no wall among its eight neighbours gets an arc in each of the NE, NW, SE and SW quadrants |
| `GraphicsDisplay.ColumnDrawsMembers` | graphicsDisplay.py:438-440 | A column yields exactly its wall cells' drawings |
| `GraphicsDisplay.WallDrawsMembers` | graphicsDisplay.py:429-440 | The walls yield one drawing per wall cell and nothing else |
| `GraphicsDisplay.DrawWalls` | graphicsDisplay.py:429-521 | The loops draw every wall cell, column by column and each bottom to top, in its column's colour with its four quadrant decisions |
| `GraphicsDisplay.DrawColumn` | graphicsDisplay.py:438-521 | The inner loop draws exactly the wall cells of one column, bottom to top, each in the column's colour |
| `GraphicsDisplay.DrawFood` | graphicsDisplay.py:531-549 | The result has the food grid's shape. An entry is None iff the cell has no food, and otherwise a dot of its column's colour |
| `GraphicsDisplay.GhostDistanceFontSize` | graphicsDisplay.py:104-110 | The font size is 20, 12 when the pane width is below 240, and 10 when below 160 |
| `GraphicsDisplay.FontSizeMonotone` | graphicsDisplay.py:106-110 | A wider pane never gets a smaller font |
| `GraphicsDisplay.InfoPane.constructor` | graphicsDisplay.py:80-83 | The pane is as wide as the board, with its base one row above it |
| `GraphicsDisplay.InfoPane.InitializeGhostDistances` | graphicsDisplay.py:104-113 | One text per distance, at width/2 + width/8*i, in ghost colour i+1 and the rule's size. The colour lookup fails from the sixth distance on, leaving the first five |
| `GraphicsDisplay.PacmanGraphics.constructor` | graphicsDisplay.py:147-154 | The grid size is 30 times the zoom, and there are no agent images yet |
| `GraphicsDisplay.PacmanGraphics.DrawAgentObjects` | graphicsDisplay.py:196-205 | One (state, image) pair per agent, in index order, with Pacman's image for Pacman and a ghost's otherwise |
| `GraphicsDisplay.PacmanGraphics.SwapImages` | graphicsDisplay.py:207-217 | The agent's entry gets the new state and an image of its new kind, and no other entry changes |
| `GraphicsDisplay.PacmanGraphics.Update` | graphicsDisplay.py:219-234 | Only the moved agent's entry is rewritten, with its new state. Its image is redrawn iff the isPacman flag changed. An out-of-range index changes nothing |
| `GraphicsDisplay.UpdateKeepsImagesMatching` | graphicsDisplay.py:219-234 | After an update every image is still of its agent's kind |

## Left out

- Network and optimiser: the convolutional forward pass, Adam, autograd and the tensor conversions. The network is an uninterpreted function to four reals, and the optimiser's new parameters are an input.
- Floating point: components, probabilities, losses and screen coordinates are exact reals. NaN, infinities and float32 rounding are not modelled; the loss of an empty batch (NaN in torch) is `None`.
- File I/O: `torch.load`, `torch.save` and `os.path.exists` are inputs (`fileExists`, `loaded`). `Dqn.DQN.SaveCkpt` returns the parameters it would write.
- `getLayout`/`tryToLoad` (layout.py:192-219): file search and directory changes are not modelled.
- `getRandomLegalPosition` and `getRandomCorner` (layout.py:98-114): random helpers, not modelled.
- `__str__` and `deepCopy` (layout.py:131-135): trivial copies, not modelled.
- Randomness: `util.sample` and `random.choice` become a `pick` parameter (an index or a key), so only membership of the pick is modelled.
- Tk, printing and sleeping:
  - not modelled: window and canvas calls, animation, `sleep`, event pumping, blocking waits, PostScript export, and the UI plumbing of graphicsDisplay.py (255-400, 415-416, 572-609, 661-677);
  - the text display counts draws instead of printing;
  - `_printMoveInfo` and `pause` are left out.
- The drawing calls: `DrawWalls` records each wall cell's colour and the pieces chosen per quadrant. The arc angles and line offsets passed to Tk are not modelled, and neither are the team colours' RGB values (`Paint` names the colour only).
- `drawCapsules`, `drawDistributions`, `make_window`, food and capsule removal, and the info pane's score text: display code outside the decision rules, not modelled.
- Visibility aliasing: `Grid(..., {dict of sets})` may share one dict across cells (layout.py:57-64). That behaviour belongs to `game.Grid`, which is not part of this model, so the matrix is modelled as one fresh set per key. The properties are stated about the points the loop adds.
- `Dqn.ParseInt`: follows `int()` on ASCII whitespace, sign and ASCII digits only. Unicode digits, Unicode whitespace and underscores between digits, which `int()` also accepts, are rejected here. Its contract is weaker than a full characterisation; `ParseNatToString` and `StepOfCheckpointName` give the round trip.
- `Layout.Layout.constructor`: requires a well-formed text. The IndexError cases (empty text, a line shorter than the first) are modelled by `NewLayout`, which returns None for them.
- `GraphicsUtils.ParseHex`: follows `int(s, 16)` on ASCII whitespace, sign and hex digits only. Unicode digits and Unicode whitespace, which `int()` also accepts, are rejected here. Its own contract gives bounds only; `ParseHexCases` states the value for every input.
- `GhostAgents.GetAction`: `util.sample` draws with probability proportional to the weights; only that the result is a key is modelled.
- `GhostAgents.DirectionalDistribution`: legal action lists with duplicates are allowed, but the closed-form weights (`DirectionalSumsToOne`) are proved for distinct legal actions, which is what `getLegalActions` returns.
- `GraphicsUtils.NormalizeEndpoints`: `turns` is a ghost count of the 360-degree additions, used only to state that end moves by whole turns.
- Module-wide state: `_keysdown`/`_keyswaiting` and the click slots are fields of `KeyState`/`ClickState` objects, and `SLEEP_TIME` a field of `Settings`. Their ordering as Python dicts is kept as insertion order.

## Findings

| source | as written | input that shows it | evidently intended | confidence | as-written member | corrected member |
|---|---|---|---|---|---|---|
| layout.py:48 | The visibility cache is keyed by the layout lines concatenated with no separator | ["%%","%%"] (2x2) and ["%%%%"] (4x1) share the key "%%%%". The second maze would reuse the first maze's matrix, which has no entry for its cells (2, 0) and (3, 0) | A key that fixes the maze's shape, such as the tuple of lines | medium; not executed | `Layout.CacheKeyCollision` | `Layout.Layout.InitializeVisibilityMatrixByLines` |
| graphicsUtils.py:37-39 | colorToVector divides each byte by 256.0, while formatColor multiplies by 255 | "#ffffff" decodes to 255/256 and re-encodes as "#fefefe"; every non-zero byte drops by one | Divide by 255.0, so that decode then encode is the identity | medium; not executed | `GraphicsUtils.WhiteDarkensOnRoundTrip` | `GraphicsUtils.DecodeEncodeBy255` |
