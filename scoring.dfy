/** What the scoring systems share: score tables and counting of edges. */
module Scoring {
  import PlayerState

  /** `scores[k] || 0`: the table entry, 0 when the table has none. */
  function ScoreFor(scores: map<int, int>, k: int): (s: int)
    ensures k in scores ==> s == scores[k]
    ensures k !in scores ==> s == 0
  {
    if k in scores then scores[k] else 0
  }

  /** `getFinalScore(gameState, player)`, the same in every scoring system: the player's score as it stands. */
  function GetFinalScore(player: PlayerState.Player): (s: int)
    reads player
    ensures s == player.score
  {
    player.score
  }

  /** The default table: `k` matching edges score `k * k`. */
  const DefaultScores: map<int, int> := map[1 := 1, 2 := 4, 3 := 9, 4 := 16]

  lemma DefaultScoreIsSquare(k: nat)
    requires k <= 4
    ensures ScoreFor(DefaultScores, k) == k * k
  {
  }

  /** How many of `flags` hold. */
  function CountTrue(flags: seq<bool>): (c: nat)
    ensures c <= |flags|
  {
    if flags == [] then 0 else CountTrue(flags[..|flags| - 1]) + (if flags[|flags| - 1] then 1 else 0)
  }

  /** Counting is monotone: a flag set that implies another, position by position, counts no more. */
  lemma {:induction false} CountTrueMonotone(a: seq<bool>, b: seq<bool>)
    requires |a| == |b| && forall i :: 0 <= i < |a| ==> a[i] ==> b[i]
    ensures CountTrue(a) <= CountTrue(b)
  {
    if a != [] {
      CountTrueMonotone(a[..|a| - 1], b[..|b| - 1]);
    }
  }

  lemma {:induction false} CountTrueZero(a: seq<bool>)
    ensures CountTrue(a) == 0 <==> forall i :: 0 <= i < |a| ==> !a[i]
  {
    if a != [] {
      CountTrueZero(a[..|a| - 1]);
    }
  }
}

/** Standard scoring: matching rotated edges, squared, doubled next to a starter tile. */
module StandardScoring {
  import opened Common
  import opened Tiles
  import opened Boards
  import opened Scoring

  datatype StandardOptions = StandardOptions(starterTileMultiplier: int, scores: map<int, int>)

  const DefaultOptions := StandardOptions(2, DefaultScores)

  /** Edge `d` scores: a neighbour is there, neither facing side is Blank, and the sides are equal. */
  predicate EdgeScores(b: Board, p: Pos, t: Tile, d: nat)
    requires d < 4
  {
    var q := Neighbor(p, d);
    Occupied(b, q) &&
    RotatedSides(t)[d] != BLANK && RotatedSides(At(b, q).value)[Facing(d)] != BLANK &&
    RotatedSides(t)[d] == RotatedSides(At(b, q).value)[Facing(d)]
  }

  function MatchFlags(b: Board, p: Pos, t: Tile): (f: seq<bool>)
    ensures |f| == 4 && forall d :: 0 <= d < 4 ==> f[d] == EdgeScores(b, p, t, d)
  {
    [EdgeScores(b, p, t, 0), EdgeScores(b, p, t, 1), EdgeScores(b, p, t, 2), EdgeScores(b, p, t, 3)]
  }

  /** `countMatches`: the number of scoring edges. */
  method CountMatches(b: Board, p: Pos, t: Tile) returns (matches: nat)
    requires IsSquare(b)
    ensures matches == CountTrue(MatchFlags(b, p, t)) && matches <= 4
  {
    var n := |b|;
    var tileSides := RotatedSides(t);
    var flags := MatchFlags(b, p, t);
    matches := 0;
    var d := 0;
    while d < 4
      invariant 0 <= d <= 4
      invariant matches == CountTrue(flags[..d])
    {
      assert flags[..d + 1][..d] == flags[..d];
      var q := Neighbor(p, d);
      ghost var before := matches;
      if 0 <= q.x < n && 0 <= q.y < n && b[q.y][q.x].Some? {
        var adjacentSides := RotatedSides(b[q.y][q.x].value);
        assert b[q.y][q.x] == At(b, q);
        if tileSides[d] != BLANK && adjacentSides[Facing(d)] != BLANK && tileSides[d] == adjacentSides[Facing(d)] {
          matches := matches + 1;
        }
      }
      assert matches == before + (if flags[d] then 1 else 0);
      d := d + 1;
    }
    assert flags[..4] == flags;
  }

  /** The score of placing `t` at `p`. */
  function Score(o: StandardOptions, b: Board, p: Pos, t: Tile): int {
    ScoreFor(o.scores, CountTrue(MatchFlags(b, p, t))) *
    (if AdjacentToStarter(b, p) then o.starterTileMultiplier else 1)
  }

  /** `calculateScore(gameState, position, tile)`. */
  method CalculateScore(o: StandardOptions, b: Board, p: Pos, t: Tile) returns (score: int)
    requires IsSquare(b)
    ensures score == Score(o, b, p, t)
  {
    var matchCount := CountMatches(b, p, t);
    score := ScoreFor(o.scores, matchCount);
    if AdjacentToStarter(b, p) {
      score := score * o.starterTileMultiplier;
    }
  }

  /** With the default options a placement with `k` scoring edges earns `k * k`, twice that beside a starter tile. */
  lemma DefaultScore(b: Board, p: Pos, t: Tile)
    ensures var k := CountTrue(MatchFlags(b, p, t));
            k <= 4 && Score(DefaultOptions, b, p, t) == k * k * (if AdjacentToStarter(b, p) then 2 else 1)
  {
    DefaultScoreIsSquare(CountTrue(MatchFlags(b, p, t)));
  }

  /** A tile earns no edge score with no neighbour, and never on a Blank side. */
  lemma NoNeighbourNoScore(b: Board, p: Pos, t: Tile)
    requires forall d :: 0 <= d < 4 ==> !Occupied(b, Neighbor(p, d)) || RotatedSides(t)[d] == BLANK
    ensures CountTrue(MatchFlags(b, p, t)) == 0
    ensures Score(DefaultOptions, b, p, t) == 0
  {
    CountTrueZero(MatchFlags(b, p, t));
  }
}

/** Enhanced street scoring: unrotated edge matches, centre and intersection bonuses. */
module EnhancedScoring {
  import opened Common
  import opened Tiles
  import opened Boards
  import opened Scoring

  datatype EnhancedOptions = EnhancedOptions(
    starterTileMultiplier: int,
    centerBonus: int,
    intersectionBonus: int,
    scores: map<int, int>)

  const DefaultOptions := EnhancedOptions(2, 5, 5, DefaultScores)

  /** Edge `d` matches: a neighbour is there and the unrotated facing sides are equal. */
  predicate SidesEqual(b: Board, p: Pos, t: Tile, d: nat)
    requires d < 4
  {
    var q := Neighbor(p, d);
    Occupied(b, q) && t.sides[d] == At(b, q).value.sides[Facing(d)]
  }

  function MatchFlags(b: Board, p: Pos, t: Tile): (f: seq<bool>)
    ensures |f| == 4 && forall d :: 0 <= d < 4 ==> f[d] == SidesEqual(b, p, t, d)
  {
    [SidesEqual(b, p, t, 0), SidesEqual(b, p, t, 1), SidesEqual(b, p, t, 2), SidesEqual(b, p, t, 3)]
  }

  /** `countMatches`: the number of neighbours whose unrotated facing side equals the tile's. */
  method CountMatches(b: Board, p: Pos, t: Tile) returns (matches: nat)
    requires IsSquare(b)
    ensures matches == CountTrue(MatchFlags(b, p, t)) && matches <= 4
  {
    var n := |b|;
    var flags := MatchFlags(b, p, t);
    matches := 0;
    var d := 0;
    while d < 4
      invariant 0 <= d <= 4
      invariant matches == CountTrue(flags[..d])
    {
      assert flags[..d + 1][..d] == flags[..d];
      var q := Neighbor(p, d);
      if 0 <= q.x < n && 0 <= q.y < n && b[q.y][q.x].Some? {
        if t.sides[d] == b[q.y][q.x].value.sides[Facing(d)] {
          matches := matches + 1;
        }
      }
      d := d + 1;
    }
    assert flags[..4] == flags;
  }

  /** `isCenterPlacement`: the cell `(floor(n / 2), floor(n / 2))`. */
  predicate IsCenterPlacement(n: nat, p: Pos) {
    p.x == n / 2 && p.y == n / 2
  }

  /** `isIntersection`: every side is a street. */
  predicate IsIntersection(t: Tile) {
    forall i :: 0 <= i < 4 ==> t.sides[i] == STREET
  }

  /** The score of placing `t` at `p`: the table entry plus bonuses, all multiplied beside a starter. */
  function Score(o: EnhancedOptions, b: Board, p: Pos, t: Tile): int {
    (ScoreFor(o.scores, CountTrue(MatchFlags(b, p, t))) +
     (if IsCenterPlacement(|b|, p) then o.centerBonus else 0) +
     (if IsIntersection(t) then o.intersectionBonus else 0)) *
    (if AdjacentToStarter(b, p) then o.starterTileMultiplier else 1)
  }

  /** `calculateScore(gameState, position, tile)`. */
  method CalculateScore(o: EnhancedOptions, b: Board, p: Pos, t: Tile) returns (score: int)
    requires IsSquare(b)
    ensures score == Score(o, b, p, t)
  {
    score := 0;
    var matchCount := CountMatches(b, p, t);
    score := score + ScoreFor(o.scores, matchCount);
    if IsCenterPlacement(|b|, p) {
      score := score + o.centerBonus;
    }
    if IsIntersection(t) {
      score := score + o.intersectionBonus;
    }
    if AdjacentToStarter(b, p) {
      score := score * o.starterTileMultiplier;
    }
  }

  /** The enhanced score never looks at the placed tile's rotation. */
  lemma ScoreIgnoresRotation(o: EnhancedOptions, b: Board, p: Pos, t: Tile, r: nat)
    ensures Score(o, b, p, t.(rotation := r)) == Score(o, b, p, t)
  {
    assert MatchFlags(b, p, t.(rotation := r)) == MatchFlags(b, p, t);
  }

  /** With the default options the score lies between 0 and (16 + 5 + 5) * 2. */
  lemma DefaultScoreBounds(b: Board, p: Pos, t: Tile)
    ensures 0 <= Score(DefaultOptions, b, p, t) <= 52
    ensures !AdjacentToStarter(b, p) ==> Score(DefaultOptions, b, p, t) <= 26
  {
    DefaultScoreIsSquare(CountTrue(MatchFlags(b, p, t)));
  }
}
