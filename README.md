# Tiles: a verified model of the game core

This project models the core of the Tiles game in Dafny. Players take turns placing square
tiles on an N x N board. Each tile has four sides: streets and non-streets in the Streets tile
set, coloured shapes or Blank in the Shapes tile set. A placement must obey the basic ruleset,
and it earns points from the configured scoring system. The model covers:

- the ruleset (`BasicRules`), deciding where a tile may go and listing the valid moves;
- the game state machine (`GameStates`): selecting and rotating the selected tile, placing it,
  passing the turn, the end of the game, and saving and restoring a game;
- the players and the turn order (`PlayerState`);
- the three scoring systems (`StandardScoring`, `EnhancedScoring`, `StreetScoring`) and the
  longest-path search they use (`PathScoring`);
- the two tile sets (`StreetsTileSet`, `ShapesTileSet`, dispatched by `TileSets`);
- the seeding of initial tiles (`InitialTiles`): random seeds, the border arrangement and the
  centre tile;
- the array helpers of `game-utils.js` (`GameUtils`);
- the component registry (`GameRegistries`);
- the configuration normalisation of the application (`AppConfig`).

The board is a square sequence of rows of optional tiles. `Boards.BoardState` holds the grid
that the game and the street scorer write into. Objects that the source changes in place are
classes, and their methods state their new state:

- the game state, the player manager and the players;
- the street and path scorers, and the registry;
- the border backtracking search and the depth-first path search.

Emitted events are appended to an `Events.EventLog`. `GameStates.GameState.Model()` is the
game as a value. The steps of a placement are written as functions on that value
(`PlaceStep`), and lemmas about them state what a placement does to the board, the seats, the
turn and the events.

Randomness is a parameter:

- `Math.random()` for tile generation comes from a `TileSets.TileSource`, a supply of draws
  numbered from 0 and consumed one per generated tile;
- generated ids come from an `ids` function;
- the position shuffle comes from a `shuffle` function that gives the roll for each swap.

## Model

| member | source | states |
|---|---|---|
| `Tiles.RotatedSidesMoveBy` | assets/js/rules/basic-rules.js:147-155 | after `rotation` right shifts, side `i` faces direction `(i + rotation) mod 4`, and no side is lost or added |
| `Tiles.RotatedSidesPeriodic` | assets/js/rules/basic-rules.js:147-155 | rotations `r` and `r + 4` show the same sides |
| `Tiles.PlayerColorAt` | assets/js/core/player-state.js:4-10 | `DEFAULT_PLAYER_COLORS[i]` exists exactly for `0 <= i < 5` and is one of the five colours |
| `Tiles.SeatColor` | assets/js/tile-sets/streets-tileset.js:68-70 | a lone player gets white; otherwise seat `i` gets the colour after its index, or none past the list |
| `Boards.EmptyBoard` | assets/js/core/game-state.js:14-15 | a fresh board is N x N and every cell is empty |
| `Boards.Put` | assets/js/core/game-state.js:163 | writing a cell changes that cell only, and the board stays N x N |
| `Boards.PutAtIdentity` | assets/js/scoring/street-scoring.js:47-84 | writing back the cell that was read leaves the board unchanged |
| `Boards.PutPut` | assets/js/scoring/street-scoring.js:47-84 | a second write to the same cell overrides the first |
| `Boards.Facing` | assets/js/rules/basic-rules.js:110-145 | the side that faces side `d` across an edge is a different side |
| `Boards.NeighborBack` | assets/js/rules/basic-rules.js:110-145 | stepping to a neighbour and back returns to the cell, and facing twice is the identity |
| `Boards.ScanRowSpec` | assets/js/rules/basic-rules.js:164-185 | one row of the scan lists exactly the matching cells of that row, left to right |
| `Boards.ScanRowsSpec` | assets/js/rules/basic-rules.js:164-185 | the first `k` rows list exactly their matching cells, in row-major order |
| `Boards.ScanSpec` | assets/js/rules/basic-rules.js:164-185 | the nested scan lists every in-bounds matching cell once, in row-major order |
| `Boards.BoardState.constructor` | assets/js/core/game-state.js:14-15 | the grid starts as the empty N x N board |
| `Boards.BoardState.Set` | assets/js/core/game-state.js:163 | `boardState[y][x] = c` changes that one cell |
| `Events.EventLog.constructor` | assets/js/core/game-state.js:20 | no event has been emitted |
| `Events.EventLog.Emit` | assets/js/core/game-state.js:84-89 | an emitted event is appended after all earlier ones |
| `GameUtils.RandomIndex` | assets/js/utils/game-utils.js:92 | `Math.floor(u * n)` is an index below `n` |
| `GameUtils.RotateRightAt` | assets/js/utils/game-utils.js:13-19 | after `times` right shifts, element `i` sits at `(i + times) mod n` |
| `GameUtils.RotateFourIdentity` | assets/js/utils/game-utils.js:13-19 | four shifts of four sides give the sides back |
| `GameUtils.RotateRightCompose` | assets/js/utils/game-utils.js:13-19 | rotating by `a` and then by `b` is rotating by `a + b` |
| `GameUtils.RotateRightPeriod` | assets/js/utils/game-utils.js:13-19 | on four sides, rotation counts four apart agree |
| `GameUtils.RotateRightMultiset` | assets/js/utils/game-utils.js:13-19 | a rotation is a permutation |
| `GameUtils.RotateArray` | assets/js/utils/game-utils.js:13-19 | the loop's result is the `times`-fold right rotation of a copy: same elements, element `i` at `(i + times) mod n`, the argument untouched |
| `GameUtils.ShuffleArray` | assets/js/utils/game-utils.js:90-96 | Fisher-Yates in place returns the same array, holding a permutation of its old contents |
| `GameUtils.WithoutBlank` | assets/js/utils/game-utils.js:74 | the filter keeps exactly the keys other than Blank |
| `GameUtils.ColorNamesAreNonBlankKeys` | assets/js/utils/game-utils.js:62-74 | `colorNames` is the keys of `colors` without Blank, in declaration order |
| `GameUtils.WithoutBlankKeeps` | assets/js/utils/game-utils.js:74 | with no Blank key, the filter keeps every key in order |
| `GameUtils.ColorNamesHaveValues` | assets/js/utils/game-utils.js:62-74 | every colour name has a CSS value |
| `GameUtils.UpdateActiveShapes` | assets/js/utils/game-utils.js:81-83 | the active shapes are a prefix of at most eight colour names, of the requested length (eight less its size for a negative count), never Blank |
| `BasicRules.OpenBoardIffEmpty` | assets/js/rules/basic-rules.js:63-69 | "first move and no starter tiles" holds exactly when the board is empty |
| `BasicRules.PlacementNeedsEmptyCell` | assets/js/rules/basic-rules.js:21-29 | a placement off the board or onto a tile is never valid |
| `BasicRules.PlacementNeedsNeighbour` | assets/js/rules/basic-rules.js:71-77 | outside free play, on a non-empty board, a valid placement touches a tile and matches every edge |
| `BasicRules.EmptyBoardAcceptsAnyCell` | assets/js/rules/basic-rules.js:63-69 | on an empty board without free play, every empty cell that passes the border rule is valid |
| `BasicRules.PlacementMatchesEdges` | assets/js/rules/basic-rules.js:110-145 | without blank matches, every occupied neighbour shows on its facing side what the tile shows |
| `BasicRules.StreetsBorderRule` | assets/js/rules/basic-rules.js:37-45 | with the border rule on a Streets board, no street faces off the board |
| `BasicRules.ShapesBorderRule` | assets/js/rules/basic-rules.js:46-54 | with the border rule on a Shapes board, every side facing off the board is Blank |
| `BasicRules.ListCell` | assets/js/rules/basic-rules.js:166-183 | one cell's three branches decide exactly the listing predicate |
| `BasicRules.ScanRowMoves` | assets/js/rules/basic-rules.js:164-185 | the inner loop lists row `y`'s listable cells, left to right |
| `BasicRules.IsOpenBoard` | assets/js/rules/basic-rules.js:160-162 | the flags computed before the scan tell whether the board is open |
| `BasicRules.GetValidMoves` | assets/js/rules/basic-rules.js:157-188 | a cell is listed iff it is in bounds and acceptable; the list is row-major and has no duplicates |
| `BasicRules.MovesSpec` | assets/js/rules/basic-rules.js:157-188 | the scan's membership, order and uniqueness |
| `BasicRules.ValidMovesArePlacements` | assets/js/rules/basic-rules.js:157-188 | past the opening, or with the border rule off, the listed moves are exactly the valid placements |
| `BasicRules.OpenBoardListsEmptyCells` | assets/js/rules/basic-rules.js:166-170 | on an empty board every empty cell is listed |
| `BasicRules.BorderRuleGapOnOpenBoard` | assets/js/rules/basic-rules.js:166-170 | on an open Streets board with the border rule on, a corner is listed that `isValidPlacement` refuses |
| `Scoring.GetFinalScore` | assets/js/scoring/standard-scoring.js:104-106 | the final score is the player's score as it stands |
| `Scoring.DefaultScoreIsSquare` | assets/js/scoring/standard-scoring.js:5-19 | the default table gives `k * k` for `k` matched edges |
| `Scoring.CountTrue` | assets/js/scoring/standard-scoring.js:46-84 | a count of flags is at most the number of flags |
| `Scoring.CountTrueMonotone` | assets/js/scoring/standard-scoring.js:46-84 | flags that imply others, position by position, count no more |
| `Scoring.CountTrueZero` | assets/js/scoring/standard-scoring.js:46-84 | the count is zero iff no flag holds |
| `StandardScoring.MatchFlags` | assets/js/scoring/standard-scoring.js:46-84 | one flag per direction, set iff that edge scores |
| `StandardScoring.CountMatches` | assets/js/scoring/standard-scoring.js:46-84 | the loop counts the scoring edges: a neighbour is there, neither rotated side is Blank, and they are equal |
| `StandardScoring.CalculateScore` | assets/js/scoring/standard-scoring.js:21-31 | the table entry for the matches, multiplied beside a starter tile |
| `StandardScoring.DefaultScore` | assets/js/scoring/standard-scoring.js:21-31 | with the defaults, `k` matches earn `k * k`, doubled beside a starter tile |
| `StandardScoring.NoNeighbourNoScore` | assets/js/scoring/standard-scoring.js:46-84 | with no neighbour facing a non-Blank side there is nothing to score |
| `EnhancedScoring.MatchFlags` | assets/js/scoring/enhanced-scoring.js:49-74 | one flag per direction, set iff the unrotated facing sides are equal |
| `EnhancedScoring.CountMatches` | assets/js/scoring/enhanced-scoring.js:49-74 | the loop counts neighbours whose unrotated facing side equals the tile's |
| `EnhancedScoring.CalculateScore` | assets/js/scoring/enhanced-scoring.js:24-47 | the table entry plus the centre and intersection bonuses, multiplied beside a starter tile |
| `EnhancedScoring.ScoreIgnoresRotation` | assets/js/scoring/enhanced-scoring.js:49-74 | the score does not depend on the tile's rotation |
| `EnhancedScoring.DefaultScoreBounds` | assets/js/scoring/enhanced-scoring.js:6-47 | with the defaults the score lies in 0..52, and in 0..26 away from starter tiles |
| `StreetsTileSet.StreetSide` | assets/js/tile-sets/streets-tileset.js:59 | each side is a street or a non-street |
| `StreetsTileSet.GenerateTile` | assets/js/tile-sets/streets-tileset.js:56-73 | id from the draw, rotation 0; a side is a street iff its roll is below 0.75; a pattern iff enabled and rolled, circles or squares by weight; the seat colour iff a player index is given |
| `StreetsTileSet.GeneratedTilesValidate` | assets/js/tile-sets/streets-tileset.js:97-99 | every generated tile passes `validateTile` |
| `ShapesTileSet.AvailableColors` | assets/js/tile-sets/shapes-tileset.js:21-28 | the active colours, never Blank, with Blank appended last when blank sides are on |
| `ShapesTileSet.ShapeSide` | assets/js/tile-sets/shapes-tileset.js:33-38 | a side is Blank iff blanks are on and either rolled or no colour is active; otherwise it is an active colour |
| `ShapesTileSet.DrawableCounts` | assets/js/tile-sets/shapes-tileset.js:21-28 | something can be drawn iff blanks are on, the count is positive, or the count is negative above -8 |
| `ShapesTileSet.NoColorsAllBlank` | assets/js/tile-sets/shapes-tileset.js:21-38 | with no active colour and blanks on, all four sides are Blank |
| `ShapesTileSet.GenerateTile` | assets/js/tile-sets/shapes-tileset.js:20-40 | an id and four drawn sides, no pattern, no colour, rotation 0 |
| `ShapesTileSet.GeneratedTilesValidate` | assets/js/tile-sets/shapes-tileset.js:87-90 | generated tiles validate, and have no Blank side when blanks are off |
| `TileSets.Name` | assets/js/tile-sets/streets-tileset.js:7-16 | the name is "Streets" or "Shapes" exactly for that tile set |
| `TileSets.GenerateTile` | assets/js/tile-sets/shapes-tileset.js:20-40 | every tile set's generated tile has the draw's id, rotation 0, no starter flag, and validates |
| `TileSets.TileSource.constructor` | assets/js/tile-sets/streets-tileset.js:58 | the supply of random draws starts unused |
| `TileSets.TileSource.Generate` | assets/js/tile-sets/streets-tileset.js:56-73 | `generateTile` consumes exactly the next draw |
| `PlayerState.ColorFor` | assets/js/core/player-state.js:59-61 | the configured colour when truthy; else white for a lone player, the colour after the seat index, or black past the list |
| `PlayerState.IndexOfTile` | assets/js/core/player-state.js:38 | `findIndex`: the first index of a tile with that id, or -1 iff there is none |
| `PlayerState.WithoutTileSpec` | assets/js/core/player-state.js:37-42 | removal drops exactly the first tile with that id, keeping the rest in order; no such tile, no change |
| `PlayerState.WithoutTileMultiset` | assets/js/core/player-state.js:37-42 | the removed tile and the kept tiles together are the old rack |
| `PlayerState.Player.constructor` | assets/js/core/player-state.js:13-20 | the given id, or a generated one when missing or empty; score 0, bonus 0, empty rack, no colour |
| `PlayerState.Player.AddScore` | assets/js/core/player-state.js:22-27 | the score grows by the points, and the bonus grows only when flagged |
| `PlayerState.Player.SetTiles` | assets/js/core/player-state.js:29-31 | the rack is replaced; nothing else changes |
| `PlayerState.Player.SetColor` | assets/js/core/player-state.js:33-35 | the colour is replaced; nothing else changes |
| `PlayerState.Player.RemoveTile` | assets/js/core/player-state.js:37-42 | the rack loses the first tile with that id; nothing else changes |
| `PlayerState.Player.AddTile` | assets/js/core/player-state.js:44-47 | the tile is appended to the rack; nothing else changes |
| `PlayerState.Roster` | assets/js/core/player-state.js:49-55 | one record per player, in seat order |
| `PlayerState.CreditedSpec` | assets/js/core/player-state.js:142-148 | crediting changes only seat `i`'s score, by the points |
| `PlayerState.RefilledSpec` | assets/js/core/player-state.js:121-127 | refilling changes only seat `i`'s rack: old tile out, new tile last |
| `PlayerState.IndexOfPlayer` | assets/js/core/player-state.js:129-131 | the first seat with that id, or -1 iff there is none |
| `PlayerState.NextSeat` | assets/js/core/player-state.js:87-90 | the next seat wraps to the first after the last |
| `PlayerState.PlayerManager.constructor` | assets/js/core/player-state.js:50-55 | no players; seat 0 is to move |
| `PlayerState.PlayerManager.CurrentPlayer` | assets/js/core/player-state.js:83-85 | the player at the turn index, or none iff the index is past the seats |
| `PlayerState.PlayerManager.GetPlayerById` | assets/js/core/player-state.js:129-131 | the first player with that id; none iff no player has it |
| `PlayerState.PlayerManager.PlayerColor` | assets/js/scoring/path-scoring.js:71-74 | that player's colour, or none without the player |
| `PlayerState.PlayerManager.InitializePlayers` | assets/js/core/player-state.js:57-81 | one fresh player per configuration, in order, each coloured and given a rack of `rackSize` tiles generated for its seat |
| `PlayerState.PlayerManager.NextTurn` | assets/js/core/player-state.js:87-90 | the turn passes cyclically to the next seat, and that player is returned |
| `PlayerState.PlayerManager.SkipTurn` | assets/js/core/player-state.js:133-140 | the turn passes to the next seat, and a turn change names that player |
| `PlayerState.PlayerManager.ReplaceTile` | assets/js/core/player-state.js:121-127 | the first player with that id swaps the old tile for the new one at the end; without the player, nothing changes |
| `PlayerState.PlayerManager.UpdatePlayerScore` | assets/js/core/player-state.js:142-148 | the first player with that id gains the points and a score update announces the new score; without the player, nothing happens |
| `StreetScoring.RoadFlags` | assets/js/scoring/street-scoring.js:103-136 | one flag per direction, set iff both facing rotated sides are streets |
| `StreetScoring.CountRoadMatches` | assets/js/scoring/street-scoring.js:103-136 | the loop counts the road connections |
| `StreetScoring.UpdatedRecords` | assets/js/scoring/street-scoring.js:47-81 | a record is added or replaced only for a strictly longer path, records never shrink, and other players' records stay |
| `StreetScoring.StreetScoring.constructor` | assets/js/scoring/street-scoring.js:6-28 | multiplier 2, squared connection scores, squares 20 and circles 10, 3 points per path tile, no records |
| `StreetScoring.StreetScoring.CalculateScore` | assets/js/scoring/street-scoring.js:30-87 | the base score plus the path credit for a strictly longer path; the record is updated, the path announced, and the speculative cell set back to empty |
| `StreetScoring.StreetScoring.PreScore` | assets/js/scoring/street-scoring.js:33-45 | road score plus pattern bonus, multiplied beside a starter tile |
| `StreetScoring.StreetScoring.CreditLongestPath` | assets/js/scoring/street-scoring.js:47-81 | the credit, the new records, the path announcement and the stored path of the longest-path step |
| `StreetScoring.StreetScoring.CreditIsExtraLength` | assets/js/scoring/street-scoring.js:59-75 | an improvement earns the extra length in path points, anything else earns 0 |
| `StreetScoring.StreetScoring.GetFinalScore` | assets/js/scoring/street-scoring.js:156-158 | the final score is the player's score |
| `StreetScoring.StreetScoring.ResetPlayerPath` | assets/js/scoring/street-scoring.js:161-163 | the player's record is forgotten |
| `StreetScoring.StreetScoring.ResetAllPaths` | assets/js/scoring/street-scoring.js:166-168 | every record is forgotten |
| `PathScoring.ConnectedSymmetric` | assets/js/scoring/path-scoring.js:117-141 | street connection runs both ways |
| `PathScoring.ConnectedNeighbors` | assets/js/scoring/path-scoring.js:117-141 | at most four street neighbours, all on the board |
| `PathScoring.LinkIn` | assets/js/scoring/path-scoring.js:117-141 | direction `d` contributes its neighbour iff the street runs on into it |
| `PathScoring.ConnectedNeighborsSpec` | assets/js/scoring/path-scoring.js:117-141 | the neighbours listed are exactly the connected cells, each once |
| `PathScoring.GetConnectedNeighbors` | assets/js/scoring/path-scoring.js:117-141 | the loop lists the street neighbours, top, right, bottom, left |
| `PathScoring.LinkTest` | assets/js/scoring/path-scoring.js:131-138 | one direction lists the neighbour exactly when it is on the board, holds a tile, and both facing sides are streets |
| `PathScoring.PathSearch.constructor` | assets/js/scoring/path-scoring.js:89-94 | the search starts with nothing visited, the path `[start]` and no paths |
| `PathScoring.DfsSearch` | assets/js/scoring/path-scoring.js:96-115 | the recursion appends the paths of the specification and restores the visited set and the current path |
| `PathScoring.SearchNeighbors` | assets/js/scoring/path-scoring.js:106-112 | the neighbour loop appends each unvisited neighbour's paths in order |
| `PathScoring.Descend` | assets/js/scoring/path-scoring.js:108-110 | push, search, pop: only that neighbour's paths are added |
| `PathScoring.SearchFromPrefix` | assets/js/scoring/path-scoring.js:96-115 | every recorded path extends the current path |
| `PathScoring.SearchFromSound` | assets/js/scoring/path-scoring.js:96-115 | every recorded path is a simple street path that ends at the target |
| `PathScoring.SearchFromComplete` | assets/js/scoring/path-scoring.js:96-115 | every simple street path through unvisited cells to the target is recorded |
| `PathScoring.SearchFromDistinct` | assets/js/scoring/path-scoring.js:96-115 | no path is recorded twice |
| `PathScoring.FindAllPathsForPlayer` | assets/js/scoring/path-scoring.js:89-94 | exactly the simple street paths from start to end, each once |
| `PathScoring.AllPathsSpec` | assets/js/scoring/path-scoring.js:89-94 | the search is sound, complete and duplicate-free |
| `PathScoring.AllPathsSound` | assets/js/scoring/path-scoring.js:89-94 | every path found is a simple street path |
| `PathScoring.AllPathsComplete` | assets/js/scoring/path-scoring.js:89-94 | every simple street path is found |
| `PathScoring.LowerChar` | assets/js/scoring/path-scoring.js:81 | ASCII upper-case letters are lowered, other characters kept |
| `PathScoring.ToLower` | assets/js/scoring/path-scoring.js:81 | lowering works character by character and keeps the length |
| `PathScoring.SpecialTilesSpec` | assets/js/scoring/path-scoring.js:76-87 | exactly the cells holding the player's tiles of that pattern, each once, row-major |
| `PathScoring.SpecialTilesInRow` | assets/js/scoring/path-scoring.js:78-85 | the inner loop collects row `y`'s special tiles |
| `PathScoring.FindSpecialTilesForPlayer` | assets/js/scoring/path-scoring.js:76-87 | the loops collect exactly the special tiles, in row-major order, each once |
| `PathScoring.ExtendSpec` | assets/js/scoring/path-scoring.js:19-25 | the running maximum is as long as every path seen, is one of them or the start, and changes only for a strictly longer path |
| `PathScoring.LongestIsFirst` | assets/js/scoring/path-scoring.js:19-25 | the first path of greatest length wins |
| `PathScoring.LongestSpec` | assets/js/scoring/path-scoring.js:19-25 | none iff every path is empty; otherwise a non-empty path as long as any |
| `PathScoring.PathsToSpec` | assets/js/scoring/path-scoring.js:18-27 | one start's candidates are the street paths from it to one of the ends |
| `PathScoring.CandidatesSpec` | assets/js/scoring/path-scoring.js:17-28 | the candidates are the street paths from a start to an end |
| `PathScoring.PlayerPathIsCandidate` | assets/js/scoring/path-scoring.js:8-32 | every player path is visited, so the player has both kinds of endpoint |
| `PathScoring.CandidateIsPlayerPath` | assets/js/scoring/path-scoring.js:8-32 | every visited path is a player path |
| `PathScoring.LongestPathSpec` | assets/js/scoring/path-scoring.js:8-32 | a longest path exists iff a square-to-circle street path does; it is one, and none is longer |
| `PathScoring.KeepLongest` | assets/js/scoring/path-scoring.js:20-24 | the innermost loop keeps the running maximum |
| `PathScoring.LongestFromStart` | assets/js/scoring/path-scoring.js:18-26 | the middle loop keeps the running maximum over the ends |
| `PathScoring.LongestAmong` | assets/js/scoring/path-scoring.js:17-28 | the outer loops find the longest candidate |
| `PathScoring.PathScoring.constructor` | assets/js/scoring/path-scoring.js:3-6 | the given points per tile, no stored paths |
| `PathScoring.PathScoring.FindLongestPathForPlayer` | assets/js/scoring/path-scoring.js:8-32 | the longest square-to-circle street path, stored for the player only when both endpoint kinds exist |
| `PathScoring.PathScoring.CalculateEndGameBonus` | assets/js/scoring/path-scoring.js:34-68 | no endpoints, no bonus; otherwise the longest path and its points |
| `PathScoring.PathScoring.CalculatePathScore` | assets/js/scoring/path-scoring.js:150-152 | points per tile of the path, 0 without a path |
| `InitialTiles.Keys` | assets/js/utils/initial-tiles-utils.js:63-66 | the map's keys, one per entry, in insertion order |
| `InitialTiles.Get` | assets/js/utils/initial-tiles-utils.js:242 | a lookup finds a tile iff some entry has the key, and that entry holds it |
| `InitialTiles.Set` | assets/js/utils/initial-tiles-utils.js:105 | the key maps to the new tile, other keys are unchanged, and a new key goes last |
| `InitialTiles.Delete` | assets/js/utils/initial-tiles-utils.js:107 | the key is gone and other keys are unchanged |
| `InitialTiles.DeleteUndoesSet` | assets/js/utils/initial-tiles-utils.js:105-107 | backtracking restores the map exactly |
| `InitialTiles.NoSeedsNoConstraint` | assets/js/utils/initial-tiles-utils.js:229-261 | with no seeds and the border rule off, anything fits anywhere: adjacency is not required |
| `InitialTiles.SingleSeedRule` | assets/js/utils/initial-tiles-utils.js:237-261 | against one seed neighbour, a tile fits iff the facing sides are equal or, if allowed, one is Blank |
| `InitialTiles.NeighborsDiffer` | assets/js/utils/initial-tiles-utils.js:230-235 | the four neighbours are distinct |
| `InitialTiles.Starter` | assets/js/utils/initial-tiles-utils.js:168-169 | every seeding attempt draws a starter tile |
| `InitialTiles.RejectedStep` | assets/js/utils/initial-tiles-utils.js:167-179 | a rejected draw extends the run of rejected draws |
| `InitialTiles.GenerateValidTile` | assets/js/utils/initial-tiles-utils.js:157-182 | nothing off the board; otherwise up to 50 draws in rotations 0 to 3, the first fit is returned, and none only after 50 rejected draws |
| `InitialTiles.DrawUntilFit` | assets/js/utils/initial-tiles-utils.js:167-179 | the attempt loop stops at the first fit, having rejected every earlier draw |
| `InitialTiles.Attempt` | assets/js/utils/initial-tiles-utils.js:168-178 | one draw, and its first fitting turn or none |
| `InitialTiles.FirstFitIsValid` | assets/js/utils/initial-tiles-utils.js:172-177 | a first fit is a starter tile in rotation 0 to 3 that fits |
| `InitialTiles.TryRotations` | assets/js/utils/initial-tiles-utils.js:172-178 | the turns are tried in order 0 to 3, and the first that fits is returned |
| `InitialTiles.ChainExtend` | assets/js/utils/initial-tiles-utils.js:54-60 | adding a seed that fits the seeds before it keeps the chain |
| `InitialTiles.SeedingExtend` | assets/js/utils/initial-tiles-utils.js:54-60 | adding a fitting starter tile at a new on-board cell keeps a seeding |
| `InitialTiles.AllPositions` | assets/js/utils/initial-tiles-utils.js:34-38 | the loops list every cell, row by row |
| `InitialTiles.AllPositionsSpec` | assets/js/utils/initial-tiles-utils.js:34-38 | `n * n` distinct cells, exactly the on-board ones |
| `InitialTiles.DistinctPermuted` | assets/js/utils/initial-tiles-utils.js:41-44 | a shuffle keeps a list free of duplicates |
| `InitialTiles.ShuffledPositions` | assets/js/utils/initial-tiles-utils.js:33-44 | the shuffled cells are a permutation of all cells: `n * n` of them, distinct, all on the board |
| `InitialTiles.GenerateValidInitialTiles` | assets/js/utils/initial-tiles-utils.js:28-67 | a seeding of at most `max(1, min(count, n * n))` seeds |
| `InitialTiles.SeedPositions` | assets/js/utils/initial-tiles-utils.js:46-60 | the first position, then one try per further position while fewer than `count` were tried, gives a seeding |
| `InitialTiles.SeedNext` | assets/js/utils/initial-tiles-utils.js:55-59 | one further position keeps a seeding, adds at most one seed, and uses only positions tried so far |
| `InitialTiles.TrySeed` | assets/js/utils/initial-tiles-utils.js:55-59 | a fitting tile joins the map last, or the map is unchanged |
| `InitialTiles.BorderWalk` | assets/js/utils/initial-tiles-utils.js:79-83 | the four loops build the clockwise walk |
| `InitialTiles.PushTop` | assets/js/utils/initial-tiles-utils.js:80 | appends row 0, left to right |
| `InitialTiles.PushRight` | assets/js/utils/initial-tiles-utils.js:81 | appends the last column from row 1 down |
| `InitialTiles.PushBottom` | assets/js/utils/initial-tiles-utils.js:82 | appends the last row from column `N - 2` leftwards |
| `InitialTiles.PushLeft` | assets/js/utils/initial-tiles-utils.js:83 | appends column 0 from row `N - 2` up to row 1 |
| `InitialTiles.BorderPathLength` | assets/js/utils/initial-tiles-utils.js:79-83 | the walk has `4 * (n - 1)` cells, or the single cell of a 1 x 1 board |
| `InitialTiles.BorderPathOnBorder` | assets/js/utils/initial-tiles-utils.js:79-83 | every walk cell is on the border |
| `InitialTiles.BorderOnBorderPath` | assets/js/utils/initial-tiles-utils.js:79-83 | every border cell is on the walk |
| `InitialTiles.BorderPathDistinct` | assets/js/utils/initial-tiles-utils.js:79-83 | the walk visits no cell twice |
| `InitialTiles.FreshCell` | assets/js/utils/initial-tiles-utils.js:93-94 | the next walk cell is not yet a key |
| `InitialTiles.FillStep` | assets/js/utils/initial-tiles-utils.js:104-105 | placing a fitting starter tile at the next walk cell appends it and extends the filled prefix |
| `InitialTiles.BorderSearch.constructor` | assets/js/utils/initial-tiles-utils.js:86-88 | the walk and options given, nothing placed |
| `InitialTiles.BorderSearch.Clear` | assets/js/utils/initial-tiles-utils.js:115 | the map is emptied |
| `InitialTiles.BorderSearch.TryPlace` | assets/js/utils/initial-tiles-utils.js:90-112 | success means the whole walk is filled; failure leaves the map as it was |
| `InitialTiles.BorderSearch.TryTurns` | assets/js/utils/initial-tiles-utils.js:101-109 | each fitting turn is placed and the rest tried; failure backtracks fully |
| `InitialTiles.BorderSearch.TryCandidate` | assets/js/utils/initial-tiles-utils.js:104-107 | a fitting turn is set and the rest of the walk tried; success fills the walk, failure deletes it again and leaves the map as it was |
| `InitialTiles.BorderSearch.Extend` | assets/js/utils/initial-tiles-utils.js:105 | the cell is set, appended last, and one more walk cell is filled |
| `InitialTiles.FilledBorderIsSeeding` | assets/js/utils/initial-tiles-utils.js:114-122 | a full border fill is a seeding |
| `InitialTiles.GenerateBorderTiles` | assets/js/utils/initial-tiles-utils.js:75-130 | either nothing or a fill of the whole walk, and a seeding either way |
| `InitialTiles.GenerateCenterTile` | assets/js/utils/initial-tiles-utils.js:137-147 | at most one seed, at `(n / 2, n / 2)`; none on an empty board; with the border rule off, exactly the first draw in rotation 0 |
| `InitialTiles.UnconstrainedFirstDraw` | assets/js/utils/initial-tiles-utils.js:167-178 | with no seeds and the border rule off, the first draw fits at rotation 0 |
| `InitialTiles.PlaceInitialTiles` | assets/js/utils/initial-tiles-utils.js:9-20 | a seeding; for 'random' at most `count` seeds clamped to 1 .. N*N; a border fill or nothing for border arrangements; at most the centre cell `(N / 2, N / 2)` for the centre; nothing, with no draw used, for other configurations |
| `GameStates.PutSeeds` | assets/js/core/game-state.js:60-63 | writing the seeds keeps the board N x N |
| `GameStates.SeedEvents` | assets/js/core/game-state.js:62 | one tile-placed event per seed |
| `GameStates.SeededCells` | assets/js/core/game-state.js:59-63 | each seed's tile lands in its cell and every other cell stays |
| `GameStates.RotatedCopyTurnsTwice` | assets/js/core/game-state.js:102-112 | the rotated copy is seen turned `2 k` times, so it looks unturned at rotation 2 |
| `GameStates.GameOverSpec` | assets/js/core/game-state.js:205-229 | the game is over iff the board is full or no rack tile in any turn can go anywhere |
| `GameStates.GameOverAfterOpening` | assets/js/core/game-state.js:205-229 | past the opening, the same with valid placements |
| `GameStates.FreshBoardNotOver` | assets/js/core/game-state.js:205-229 | a fresh board where someone holds a tile is not over |
| `GameStates.Racks` | assets/js/core/game-state.js:211-212 | the players' racks, in seat order |
| `GameStates.StandingsOf` | assets/js/core/game-state.js:232-236 | each seat's id, name and score, in seat order |
| `GameStates.InsertMultiset` | assets/js/core/game-state.js:238 | insertion adds exactly one entry |
| `GameStates.InsertSorted` | assets/js/core/game-state.js:238 | insertion keeps standings sorted |
| `GameStates.InsertStable` | assets/js/core/game-state.js:238 | the new entry goes after equal scores |
| `GameStates.SortByScoreSorted` | assets/js/core/game-state.js:238 | sorted by decreasing score |
| `GameStates.SortByScoreMultiset` | assets/js/core/game-state.js:238 | the same entries |
| `GameStates.SortByScoreStable` | assets/js/core/game-state.js:238 | ties keep their seat order |
| `GameStates.FinalScore` | assets/js/core/game-state.js:235 | every scoring system's final score is the player's score |
| `GameStates.PlaceStepState` | assets/js/core/game-state.js:163-179 | a placement puts the tile in its cell, uses one draw, passes the turn, clears the selection and ends the first move |
| `GameStates.PlaceStepSeats` | assets/js/core/game-state.js:165-170 | only the mover's seat changes: the points added, the placed tile swapped for the new one |
| `GameStates.PlaceStepEvents` | assets/js/core/game-state.js:166-182 | the events come in order: score update, turn change, the game's end if over, tile placed, mover's score |
| `GameStates.GameState.constructor` | assets/js/core/game-state.js:7-34 | sizes default to 9 and 5; empty selection; players seated when configured; the board is an empty one with the seeding `initialTiles` asks for written in, each seed announced; without an `initialTiles` that passes the guard, the board stays empty and nothing is announced |
| `GameStates.GameState.Populate` | assets/js/core/game-state.js:22-33 | the players are seated, then exactly the seeds `initialTiles` asks for are placed and announced |
| `GameStates.GameState.PlaceConfiguredTiles` | assets/js/core/game-state.js:31-33 | no truthy `initialTiles` places nothing; otherwise the board gets what `initializeBoard` places |
| `GameStates.GameState.InitializeBoard` | assets/js/core/game-state.js:36-68 | a failed guard or a bare number places nothing; past the guard, type 'random', count 0 and style 'border' stand in for missing fields and `placeInitialTiles`'s cases hold: the count bound, a border fill or nothing, the centre cell; the seeds are written and announced |
| `GameStates.GameState.WriteSeeds` | assets/js/core/game-state.js:59-63 | each seed goes into its cell and is announced |
| `GameStates.GameState.SelectTile` | assets/js/core/game-state.js:91-95 | the new selection, rotation 0, announced |
| `GameStates.GameState.RotateTile` | assets/js/core/game-state.js:97-120 | no selection, no change; otherwise one more quarter turn, the rotated copy's valid moves announced, the rotation returned |
| `GameStates.GameState.GetValidMoves` | assets/js/core/game-state.js:122-137 | none for no tile; otherwise the ruleset's moves for the tile, with the selected tile itself shifted by the rotation |
| `GameStates.GameState.PlaceTile` | assets/js/core/game-state.js:139-185 | fails with the source's three reasons, in order, changing nothing; otherwise it succeeds exactly when placeable, with the scorer's score on the old board and the new state given by `PlaceStep` |
| `GameStates.GameState.ScorePlacement` | assets/js/core/game-state.js:161 | the scorer's score; the game as a value is unchanged except for the events |
| `GameStates.GameState.ScoreStreet` | assets/js/scoring/street-scoring.js:30-87 | the street score, with the board left as it was |
| `GameStates.GameState.Commit` | assets/js/core/game-state.js:163-182 | the state after the score is known is `PlaceStep` |
| `GameStates.GameState.CreditMover` | assets/js/core/game-state.js:163-166 | the cell is written and the mover credited |
| `GameStates.GameState.Refill` | assets/js/core/game-state.js:168-170 | the next draw, generated for the mover's seat, replaces the placed tile |
| `GameStates.GameState.Advance` | assets/js/core/game-state.js:172-182 | the selection is reset, the first move ends, the turn passes, and the placement is announced |
| `GameStates.GameState.Announce` | assets/js/core/game-state.js:181-182 | tile placed and the mover's score, in that order |
| `GameStates.GameState.NextTurn` | assets/js/core/game-state.js:191-203 | the next seat, no selection, a turn change, and the game's end when it is over |
| `GameStates.GameState.Standings` | assets/js/core/game-state.js:232-236 | every player's id, name and score, in seat order |
| `GameStates.GameState.EndGame` | assets/js/core/game-state.js:231-242 | the standings, sorted by decreasing score with ties in seat order, are announced |
| `GameStates.GameState.SnapshotRestorable` | assets/js/core/game-state.js:244-253 | a valid game's snapshot has non-zero sizes and can be restored into a valid game |
| `GameStates.GameState.FromJSON` | assets/js/core/game-state.js:255-268 | the restored game's snapshot is the saved one, with zero sizes defaulted; a restorable snapshot gives a valid game |
| `GameRegistries.GameRegistry.constructor` | assets/js/core/game-registry.js:3-8 | every map starts empty |
| `GameRegistries.GameRegistry.GetTileSet` | assets/js/core/game-registry.js:27-29 | the registered tile set, or none iff the name is unregistered |
| `GameRegistries.GameRegistry.GetRuleset` | assets/js/core/game-registry.js:31-33 | the registered ruleset, or none iff unregistered |
| `GameRegistries.GameRegistry.GetScoringSystem` | assets/js/core/game-registry.js:35-37 | the registered scoring system, or none iff unregistered |
| `GameRegistries.GameRegistry.GetScoringSystemForTileSet` | assets/js/core/game-registry.js:40-47 | the system named for the tile set when that name is truthy, else the standard one |
| `GameRegistries.GameRegistry.RegisterTileSet` | assets/js/core/game-registry.js:10-12 | the name now gives this tile set; nothing else changes |
| `GameRegistries.GameRegistry.RegisterRuleset` | assets/js/core/game-registry.js:14-16 | the name now gives this ruleset; nothing else changes |
| `GameRegistries.GameRegistry.RegisterScoringSystem` | assets/js/core/game-registry.js:18-25 | the system is found under its name and, for a truthy tile set, for that tile set; every other tile set's lookup is stated |
| `AppConfig.NormalizeInitialTiles` | assets/js/main.js:173-185 | a number is kept; an arrangement keeps its style or gets border; another object becomes a random request for a positive count, or 0; anything else becomes 0 |
| `AppConfig.ArrayCounts` | assets/js/main.js:180-181 | `Number` on a count inside arrays: `[null]`, `[undefined]` and `[[]]` are 0, `[[5]]` is 5, so `{count: [[5]]}` becomes five random tiles |
| `AppConfig.NormalizePlayers` | assets/js/main.js:188-192 | no, non-array or empty players becomes `[{name: 'Player 1'}]`; a list of names becomes `{name}` objects; any other list is kept |
| `AppConfig.NormalizeConfig` | assets/js/main.js:169-202 | every field normalised or defaulted ('basic', 'streets', 9, 5, 60, a boolean timer flag); other fields copied |
| `AppConfig.NormalFixed` | assets/js/main.js:169-202 | a normalised configuration is a fixpoint |
| `AppConfig.NormalizeIdempotent` | assets/js/main.js:169-202 | normalising twice is normalising once |
| `AppConfig.InitialTilesArg` | assets/js/main.js:119-132 | an arrangement with its style or border; a random request for a positive count, carrying a truthy style; otherwise none |
| `AppConfig.ArgOfNormalized` | assets/js/main.js:119-132 | after normalisation: the arrangement, a random request without a style, or none |
| `AppConfig.ArgPassesGuard` | assets/js/main.js:119-132 | every argument passed on gets past `initializeBoard`'s guard |

## Left out

- Randomness: `Math.random()`, `generateId` and the shuffle rolls are parameters (a `TileSource` of draws, an `ids` function, a `shuffle` function). Tile ids are taken from the draw instead of `Math.random().toString(32)`.
- The turn timer (`initializeTurnTimer`, `stopTurnTimer`, the `turnTimerUpdate` event) is not modelled, because it uses clocks and callbacks. `skipTurn` and `endGame` are modelled without restarting or stopping it.
- Logging, rendering (`renderTile`, `visualizePath`), the UI managers and the handler bookkeeping of `on`/`off` are not modelled. Every emitted event is recorded in the event log, whether or not a listener is registered. So the `tilePlaced` events of a constructor, which no listener can hear yet, are recorded too.
- The abstract base classes (`base-classes.js`), `onTilePlaced`, `updateOptions` and the registry calls, `registerGameComponents`, `newGame` and the rest of `_buildGame` in `main.js` are not part of this model. The `pathPoints` scoring option, which overrides the points per path tile, is not modelled either.
- Boards are values. Aliasing between the game's board and a snapshot's board, or between player objects shared by two games, is not modelled.
- A `map` keyed by `"x,y"` strings is modelled as a sequence of entries keyed by positions, in insertion order. The key string is never parsed back.
- `GameStates.GameState.PlaceTile`: a row outside the board, and a successful placement with no players, make the source throw. They are preconditions here.
- `GameStates.GameState.GetValidMoves`: the source tests object identity (`tile === this.selectedTile`); the model takes it as a flag `same`. The membership of the moves is stated by `BasicRules.GetValidMoves`.
- `GameStates.GameState.FromJSON`: the restored players are the snapshot's own objects, not copies.
- `GameStates.GameState.InitializeBoard`: the branch that turns a bare number into `{type: 'random', count}` cannot run, because the guard before it rejects every number, so it is not modelled.
- `GameStates.GameState.Model`: the scorer's own records (best paths, stored paths) are not part of the game value. The street scorer's contract states them.
- `InitialTiles.GenerateValidInitialTiles`: requires a board of side at least 1. On an empty board, the source reads `positions[0]` as `undefined` and fails.
- `ShapesTileSet.GenerateTile`, `ShapesTileSet.ShapeSide`, `ShapesTileSet.GeneratedTilesValidate`: require `Drawable`, that is, some active colour or blank sides on. Negative counts (`slice(0, -k)`) and the all-Blank tiles of a count with no colour and blanks on are modelled. Not modelled: no active colour with blanks off (count 0, or -8 and below). There every side is `undefined` and `validateTile` rejects the tile. The setup screen always passes `parseInt(value || '6')` (assets/js/ui/setup-manager.js:190).
- `StreetsTileSet.ValidateTile`, `ShapesTileSet.ValidateTile`: a tile always has exactly four sides, so the Streets check that `sides` is an array of length 4 is not modelled. The Shapes check `side in colors` also accepts an object's inherited keys, such as `toString`; sides here range over strings, so those keys are not modelled either. Nothing in the program calls `validateTile`.
- `AppConfig.InitialTilesArg`: the initial-tiles `count` is a number. A string count, which `i < count` would coerce, is not modelled, because `main.js` only passes numbers (assets/js/main.js:119-132).
- `PathScoring.ToLower`: only ASCII letters are lowered. Unicode case mapping is not modelled.
- `AppConfig.ToNumber`: values are integers. `Number()` on strings is modelled for an optional sign followed by digits, and for the empty string. Whitespace, fractions, exponents, hexadecimal and `Infinity` are not modelled. Arrays convert through their text: empty is 0, one element converts as its own text (`null` and `undefined` as ""), and more elements are NaN because of the comma.
- `AppConfig.NormalizeConfig`: a missing field and an `undefined` field are not distinguished.
- Negative board and rack sizes are outside the model; the game's constructor requires non-negative ones.
- The `scoreUpdate` event carries the player's id and new score, not the player object.
- Player ids are compared by value. The placement lemmas use the first seat with the mover's id, which is the mover whenever ids are distinct.
