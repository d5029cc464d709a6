/**
 * Street scoring: road connections, centre-pattern bonuses and the longest-path
 * bonus, credited only for improvements (`street-scoring.js`).
 */
module StreetScoring {
  import opened Common
  import opened Tiles
  import opened Boards
  import opened Events
  import opened Scoring
  import opened PathScoring

  /** A player's best path so far: its length and the points it was worth. */
  datatype BestPath = BestPath(length: int, score: int)

  const DefaultPatternScores: map<string, int> := map["squares" := 20, "circles" := 10]

  /** Edge `d` is a road connection: a neighbour is there and both facing rotated sides are streets. */
  predicate RoadMatch(b: Board, p: Pos, t: Tile, d: nat)
    requires d < 4
  {
    var q := Neighbor(p, d);
    Occupied(b, q) && RotatedSides(t)[d] == STREET && RotatedSides(At(b, q).value)[Facing(d)] == STREET
  }

  function RoadFlags(b: Board, p: Pos, t: Tile): (f: seq<bool>)
    ensures |f| == 4 && forall d :: 0 <= d < 4 ==> f[d] == RoadMatch(b, p, t, d)
  {
    [RoadMatch(b, p, t, 0), RoadMatch(b, p, t, 1), RoadMatch(b, p, t, 2), RoadMatch(b, p, t, 3)]
  }

  /** `countRoadMatches`: the number of road connections. */
  method CountRoadMatches(b: Board, p: Pos, t: Tile) returns (matches: nat)
    requires IsSquare(b)
    ensures matches == CountTrue(RoadFlags(b, p, t)) && matches <= 4
  {
    var n := |b|;
    var tileSides := RotatedSides(t);
    var flags := RoadFlags(b, p, t);
    matches := 0;
    var d := 0;
    while d < 4
      invariant 0 <= d <= 4
      invariant matches == CountTrue(flags[..d])
    {
      assert flags[..d + 1][..d] == flags[..d];
      var q := Neighbor(p, d);
      ghost var before := matches;
      if 0 <= q.x < n && 0 <= q.y < n && b[q.y][q.x].Some? {
        var adjacentSides := RotatedSides(b[q.y][q.x].value);
        assert b[q.y][q.x] == At(b, q);
        if tileSides[d] == STREET && adjacentSides[Facing(d)] == STREET {
          matches := matches + 1;
        }
      }
      assert matches == before + (if flags[d] then 1 else 0);
      d := d + 1;
    }
    assert flags[..4] == flags;
  }

  /** `centerPatternScores[tile.centerPattern] || 0` for a tile with a (truthy) centre pattern. */
  function PatternBonus(patternScores: map<string, int>, t: Tile): (bonus: int)
    ensures !TruthyString(t.centerPattern) ==> bonus == 0
    ensures TruthyString(t.centerPattern) && t.centerPattern.value in patternScores ==>
      bonus == patternScores[t.centerPattern.value]
    ensures TruthyString(t.centerPattern) && t.centerPattern.value !in patternScores ==> bonus == 0
  {
    if TruthyString(t.centerPattern) && t.centerPattern.value in patternScores
    then patternScores[t.centerPattern.value] else 0
  }

  /** The record `bestPaths.get(playerId) || {length: 0, score: 0}`. */
  function RecordOf(bestPaths: map<string, BestPath>, playerId: string): (r: BestPath)
    ensures playerId in bestPaths ==> r == bestPaths[playerId]
    ensures playerId !in bestPaths ==> r == BestPath(0, 0)
  {
    if playerId in bestPaths then bestPaths[playerId] else BestPath(0, 0)
  }

  /** Steps 1 and 2 of `calculateScore`: the connection score plus the centre-pattern bonus. */
  function RawScore(scores: map<int, int>, patternScores: map<string, int>, b: Board, p: Pos, t: Tile): int {
    ScoreFor(scores, CountTrue(RoadFlags(b, p, t))) + PatternBonus(patternScores, t)
  }

  /** Step 3 of `calculateScore`: the score is multiplied when the cell is beside a starter tile. */
  function Multiplied(score: int, adjacent: bool, multiplier: int): int {
    if adjacent then score * multiplier else score
  }

  /** The score of steps 1 to 3 of `calculateScore`. */
  function BaseScore(scores: map<int, int>, patternScores: map<string, int>, multiplier: int, b: Board, p: Pos, t: Tile): int {
    Multiplied(RawScore(scores, patternScores, b, p, t), AdjacentToStarter(b, p), multiplier)
  }

  /** The new longest path beats the record only when it is strictly longer. */
  predicate Improves(longest: Option<Path>, best: BestPath) {
    longest.Some? && |longest.value| > best.length
  }

  /** The points the path adds: the new path's worth less the record's, only on improvement. */
  function PathCredit(longest: Option<Path>, best: BestPath, pointsPerTile: int): int {
    if Improves(longest, best) then PathPoints(|longest.value|, pointsPerTile) - best.score else 0
  }

  /** The records after a search found `longest`: replaced only for a strictly longer path. */
  function UpdatedRecords(bestPaths: map<string, BestPath>, playerId: string, longest: Option<Path>, pointsPerTile: int)
    : (r: map<string, BestPath>)
    ensures r.Keys == bestPaths.Keys + (if Improves(longest, RecordOf(bestPaths, playerId)) then {playerId} else {})
    ensures forall id :: id in bestPaths ==> r[id].length >= bestPaths[id].length
    ensures forall id :: id in r && id != playerId ==> r[id] == bestPaths[id]
  {
    if Improves(longest, RecordOf(bestPaths, playerId))
    then bestPaths[playerId := BestPath(|longest.value|, PathPoints(|longest.value|, pointsPerTile))]
    else bestPaths
  }

  /** The `pathUpdate` announcement, made whenever a path is found. */
  function PathEvents(playerId: string, longest: Option<Path>): seq<Event> {
    if longest.Some? then [PathUpdate(playerId, longest.value)] else []
  }

  /** `playerPaths` after `findLongestPathForPlayer`: set only when the player has both kinds of endpoint. */
  ghost function StoredPaths(playerPaths: map<string, Option<Path>>, b: Board, playerId: string, color: Option<string>)
    : map<string, Option<Path>>
  {
    if HasEndpoints(b, color) then playerPaths[playerId := LongestPath(b, color)] else playerPaths
  }

  /** The street scorer: its options, its path scorer and every player's best path. */
  class StreetScoring {
    const starterTileMultiplier: int
    const scores: map<int, int>
    const centerPatternScores: map<string, int>
    const pathScoring: PathScoring
    var bestPaths: map<string, BestPath>
    /** The path points credited to each player since their record was created. */
    ghost var pathCredit: map<string, int>

    /** `new StreetScoring()`: multiplier 2, squared connection scores, squares 20, circles 10, 3 points per path tile. */
    constructor ()
      ensures starterTileMultiplier == 2 && scores == DefaultScores && centerPatternScores == DefaultPatternScores
      ensures fresh(pathScoring) && pathScoring.pointsPerTile == 3 && pathScoring.playerPaths == map[]
      ensures bestPaths == map[] && Valid()
    {
      starterTileMultiplier := 2;
      scores := DefaultScores;
      centerPatternScores := DefaultPatternScores;
      pathScoring := new PathScoring(3);
      bestPaths := map[];
      pathCredit := map[];
    }

    /**
     * Every record is worth its length in path points, and the credit given to
     * a player adds up to exactly that.
     */
    ghost predicate Valid()
      reads this
    {
      pathCredit.Keys == bestPaths.Keys &&
      forall id :: id in bestPaths ==>
        bestPaths[id].score == PathPoints(bestPaths[id].length, pathScoring.pointsPerTile) && pathCredit[id] == bestPaths[id].score
    }

    /**
     * `calculateScore(gameState, position, tile)` for the current player
     * `playerId` of colour `color`. The tile is written into the cell to search
     * for the player's longest path and the cell is then set back to empty; a
     * strictly longer path than the player's record earns the difference in
     * path points and becomes the record, and any path found is announced.
     */
    method CalculateScore(grid: BoardState, p: Pos, t: Tile, playerId: string, color: Option<string>, log: EventLog)
      returns (score: int)
      requires Valid() && IsSquare(grid.cells) && InBounds(|grid.cells|, p)
      modifies this, pathScoring, grid, log
      ensures Valid()
      ensures score == BaseScore(scores, centerPatternScores, starterTileMultiplier, old(grid.cells), p, t) +
        PathCredit(LongestPath(Put(old(grid.cells), p, Some(t)), color), RecordOf(old(bestPaths), playerId), pathScoring.pointsPerTile)
      ensures bestPaths ==
        UpdatedRecords(old(bestPaths), playerId, LongestPath(Put(old(grid.cells), p, Some(t)), color), pathScoring.pointsPerTile)
      ensures grid.cells == Put(old(grid.cells), p, None)
      ensures log.events == old(log.events) + PathEvents(playerId, LongestPath(Put(old(grid.cells), p, Some(t)), color))
      ensures pathScoring.playerPaths ==
        StoredPaths(old(pathScoring.playerPaths), Put(old(grid.cells), p, Some(t)), playerId, color)
    {
      score := PreScore(grid.cells, p, t);
      grid.Set(p, Some(t));
      var credit := CreditLongestPath(grid.cells, playerId, color, log);
      score := score + credit;
      grid.Set(p, None);
      PutPut(old(grid.cells), p, Some(t), None);
    }

    /** Steps 1 to 3 of `calculateScore`, on the board before the speculative write. */
    method PreScore(b: Board, p: Pos, t: Tile) returns (score: int)
      requires IsSquare(b)
      ensures score == BaseScore(scores, centerPatternScores, starterTileMultiplier, b, p, t)
    {
      var roadConnections := CountRoadMatches(b, p, t);
      var sum := ScoreFor(scores, roadConnections) + PatternBonus(centerPatternScores, t);
      var connected := AdjacentToStarter(b, p);
      score := Multiplied(sum, connected, starterTileMultiplier);
    }

    /** Step 4 of `calculateScore`, on the board with the tile written in: the path credit. */
    method CreditLongestPath(b: Board, playerId: string, color: Option<string>, log: EventLog) returns (credit: int)
      requires Valid() && IsSquare(b)
      modifies this, pathScoring, log
      ensures Valid()
      ensures credit == PathCredit(LongestPath(b, color), RecordOf(old(bestPaths), playerId), pathScoring.pointsPerTile)
      ensures bestPaths == UpdatedRecords(old(bestPaths), playerId, LongestPath(b, color), pathScoring.pointsPerTile)
      ensures log.events == old(log.events) + PathEvents(playerId, LongestPath(b, color))
      ensures pathScoring.playerPaths == StoredPaths(old(pathScoring.playerPaths), b, playerId, color)
    {
      credit := 0;
      var longest := pathScoring.FindLongestPathForPlayer(b, playerId, color);
      assert Valid();
      if longest.Some? {
        var path := longest.value;
        var currentPathScore := pathScoring.CalculatePathScore(longest);
        var best := RecordOf(bestPaths, playerId);
        if |path| > best.length {
          var additionalScore := currentPathScore - best.score;
          ghost var credited := if playerId in pathCredit then pathCredit[playerId] else 0;
          assert credited == best.score;
          bestPaths := bestPaths[playerId := BestPath(|path|, currentPathScore)];
          pathCredit := pathCredit[playerId := credited + additionalScore];
          credit := additionalScore;
        }
        assert Valid();
        log.Emit(PathUpdate(playerId, path));
      }
    }

    /** On improvement the credit is the extra length in path points; otherwise nothing. */
    lemma CreditIsExtraLength(longest: Option<Path>, playerId: string)
      requires Valid()
      ensures var best := RecordOf(bestPaths, playerId);
        PathCredit(longest, best, pathScoring.pointsPerTile) ==
        (if Improves(longest, best) then PathPoints(|longest.value| - best.length, pathScoring.pointsPerTile) else 0)
    {
      var best := RecordOf(bestPaths, playerId);
      if Improves(longest, best) {
        assert best.score == PathPoints(best.length, pathScoring.pointsPerTile);
        assert (|longest.value| - best.length) * pathScoring.pointsPerTile ==
          |longest.value| * pathScoring.pointsPerTile - best.length * pathScoring.pointsPerTile;
      }
    }

    /** `getFinalScore(gameState, player)`. */
    function GetFinalScore(player: PlayerState.Player): (s: int)
      reads player
      ensures s == Scoring.GetFinalScore(player)
    {
      player.score
    }

    /** `resetPlayerPath(playerId)`: the player's record is forgotten. */
    method ResetPlayerPath(playerId: string)
      requires Valid()
      modifies this
      ensures Valid() && bestPaths == old(bestPaths) - {playerId}
    {
      bestPaths := bestPaths - {playerId};
      pathCredit := pathCredit - {playerId};
    }

    /** `resetAllPaths()`: every record is forgotten. */
    method ResetAllPaths()
      modifies this
      ensures Valid() && bestPaths == map[]
    {
      bestPaths := map[];
      pathCredit := map[];
    }
  }
}
