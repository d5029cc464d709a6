/**
 * The game state machine (`game-state.js`): the board, the selection and its
 * rotation, placing a tile and passing the turn, the end of the game and the
 * snapshot a game is saved to and restored from.
 */
module GameStates {
  import opened Common
  import opened Tiles
  import opened Boards
  import opened TileSets
  import opened BasicRules
  import opened Events
  import opened PlayerState
  import Scoring
  import StandardScoring
  import EnhancedScoring
  import StreetScoring
  import PathScoring
  import InitialTiles
  import GameUtils

  /** The scoring system a game is configured with. */
  datatype Scorer =
    | Standard(standard: StandardScoring.StandardOptions)
    | Enhanced(enhanced: EnhancedScoring.EnhancedOptions)
    | Street(street: StreetScoring.StreetScoring)

  /**
   * `config.initialTiles`: either a bare number or an object whose `type`,
   * `count` and `style` may each be missing.
   */
  datatype InitialTilesConfig =
    | TileCount(n: int)
    | Arrangement(kind: Option<string>, count: Option<int>, style: Option<string>)

  /** The constructor's configuration; the timer settings are not modelled. */
  datatype GameConfig = GameConfig(
    boardSize: Option<int>,
    rackSize: Option<int>,
    tileSet: TileSet,
    ruleset: RulesetOptions,
    scorer: Scorer,
    players: Option<seq<PlayerConfig>>,
    initialTiles: Option<InitialTilesConfig>)

  /** What `placeTile` returns: `{success: false, reason}` or `{success: true, score}`. */
  datatype PlaceResult = Failure(reason: string) | Success(score: int)

  /** What `toJSON` returns. The players are the player objects themselves. */
  datatype Snapshot = Snapshot(
    boardSize: nat,
    rackSize: nat,
    boardState: Board,
    players: seq<Player>,
    currentPlayerIndex: int,
    firstMove: bool)

  predicate TruthyNumber(n: Option<int>) {
    n.Some? && n.value != 0
  }

  /** JavaScript truthiness of `config.initialTiles`: only the number 0 is falsy. */
  predicate TruthyTiles(c: InitialTilesConfig) {
    c.TileCount? ==> c.n != 0
  }

  /** `config.type`, `config.count` and `config.style`: a number has none of them. */
  function TypeField(c: InitialTilesConfig): Option<string> {
    if c.Arrangement? then c.kind else None
  }

  function CountField(c: InitialTilesConfig): Option<int> {
    if c.Arrangement? then c.count else None
  }

  function StyleField(c: InitialTilesConfig): Option<string> {
    if c.Arrangement? then c.style else None
  }

  /**
   * `initializeBoard` gets past its guard: the configuration is truthy and has a
   * truthy `type` or `count`. A bare number never does.
   */
  predicate PassesGuard(c: InitialTilesConfig) {
    TruthyTiles(c) && (TruthyString(TypeField(c)) || TruthyNumber(CountField(c)))
  }

  /**
   * The seeds the constructor's `initializeBoard` call places: nothing without an
   * initial-tiles configuration that passes the guard; otherwise what
   * `placeInitialTiles` gives with type 'random', count 0 and style 'border'
   * standing in for the missing fields.
   */
  ghost predicate InitialPlacement(c: Option<InitialTilesConfig>, n: nat, placed: seq<InitialTiles.Seed>) {
    if c.Some? && PassesGuard(c.value) then
      InitialTiles.Placement(n, StringOr(TypeField(c.value), "random"), NumberOr(CountField(c.value), 0),
                             StringOr(StyleField(c.value), "border"), placed)
    else placed == []
  }

  /** The board after the seeds are written into it, one after another. */
  function PutSeeds(b: Board, seeds: seq<InitialTiles.Seed>): (r: Board)
    requires IsSquare(b) && forall i :: 0 <= i < |seeds| ==> InBounds(|b|, seeds[i].position)
    ensures IsSquare(r) && |r| == |b|
  {
    if seeds == [] then b
    else
      var last := seeds[|seeds| - 1];
      Put(PutSeeds(b, seeds[..|seeds| - 1]), last.position, Some(last.tile))
  }

  /** The `tilePlaced` events `initializeBoard` emits, one per seed. */
  function SeedEvents(seeds: seq<InitialTiles.Seed>): (es: seq<Event>)
    ensures |es| == |seeds|
  {
    if seeds == [] then []
    else
      var last := seeds[|seeds| - 1];
      SeedEvents(seeds[..|seeds| - 1]) + [TilePlaced(last.position, last.tile, None, None)]
  }

  /** Looking a key up after appending an entry. */
  lemma {:induction false} GetAppend(m: seq<InitialTiles.Seed>, s: InitialTiles.Seed, q: Pos)
    ensures InitialTiles.Get(m + [s], q) ==
      if InitialTiles.Get(m, q).Some? then InitialTiles.Get(m, q)
      else if s.position == q then Some(s.tile) else None
  {
    if m != [] {
      assert (m + [s])[1..] == m[1..] + [s];
      GetAppend(m[1..], s, q);
    }
  }

  /**
   * Writing seeds with distinct positions into a board leaves each seed's tile
   * in its cell and every other cell as it was.
   */
  lemma {:induction false} SeededCells(b: Board, seeds: seq<InitialTiles.Seed>, q: Pos)
    requires IsSquare(b) && forall i :: 0 <= i < |seeds| ==> InBounds(|b|, seeds[i].position)
    requires InitialTiles.UniqueKeys(seeds)
    ensures At(PutSeeds(b, seeds), q) ==
      if InitialTiles.Get(seeds, q).Some? then InitialTiles.Get(seeds, q) else At(b, q)
  {
    if seeds != [] {
      var init, last := seeds[..|seeds| - 1], seeds[|seeds| - 1];
      assert seeds == init + [last];
      SeededCells(b, init, q);
      GetAppend(init, last, q);
      if last.position == q {
        assert forall i :: 0 <= i < |init| ==> init[i].position != q by {
          forall i | 0 <= i < |init| ensures init[i].position != q {
            assert init[i] == seeds[i];
          }
        }
      }
    }
  }

  /** The tile `rotateTile` builds: sides already shifted `k` times, and `rotation` set to `k`. */
  function RotatedCopy(t: Tile, k: nat): Tile {
    t.(sides := GameUtils.RotateRight(t.sides, k), rotation := k)
  }

  /**
   * The ruleset turns the copy `rotateTile` builds a second time: its sides face
   * as after `2 k` turns, so at rotation 2 the ruleset sees the unturned tile.
   */
  lemma RotatedCopyTurnsTwice(t: Tile, k: nat)
    ensures RotatedSides(RotatedCopy(t, k)) == GameUtils.RotateRight(t.sides, 2 * k)
    ensures k == 2 ==> RotatedSides(RotatedCopy(t, k)) == t.sides
  {
    GameUtils.RotateRightCompose(t.sides, k, k);
    if k == 2 {
      GameUtils.RotateFourIdentity(t.sides);
    }
  }

  /** A rack tile with its sides shifted `r` times and its own `rotation` kept, as `isGameOver` tries it. */
  function Turned(t: Tile, r: nat): Tile {
    t.(sides := GameUtils.RotateRight(t.sides, r))
  }

  /** `getValidMoves(tile).length > 0`. */
  predicate HasMove(b: Board, t: Tile, o: RulesetOptions, name: string) {
    Scan(|b|, MovePred(b, t, o, name)) != []
  }

  /** Some player holds a tile that has a valid move in one of the four turns. */
  predicate CanPlay(b: Board, racks: seq<seq<Tile>>, o: RulesetOptions, name: string) {
    exists i, j, r :: 0 <= i < |racks| && 0 <= j < |racks[i]| && 0 <= r < 4 &&
      HasMove(b, Turned(racks[i][j], r), o, name)
  }

  /** `isGameOver`: the board is full, or no player can move. */
  predicate GameOver(b: Board, racks: seq<seq<Tile>>, o: RulesetOptions, name: string) {
    IsFull(b) || !CanPlay(b, racks, o, name)
  }

  /**
   * The game is over exactly when the board is full or no tile of any rack, in
   * any of its four turns, can go to any cell.
   */
  lemma GameOverSpec(b: Board, racks: seq<seq<Tile>>, o: RulesetOptions, name: string)
    ensures GameOver(b, racks, o, name) <==>
      IsFull(b) ||
      forall i, j, r, p :: 0 <= i < |racks| && 0 <= j < |racks[i]| && 0 <= r < 4 && InBounds(|b|, p) ==>
        !CanPlaceAt(b, Turned(racks[i][j], r), o, name, p)
  {
    forall i, j, r | 0 <= i < |racks| && 0 <= j < |racks[i]| && 0 <= r < 4
      ensures HasMove(b, Turned(racks[i][j], r), o, name) <==>
        exists p :: InBounds(|b|, p) && CanPlaceAt(b, Turned(racks[i][j], r), o, name, p)
    {
      var t := Turned(racks[i][j], r);
      MovesSpec(b, t, o, name);
      if HasMove(b, t, o, name) {
        var p := Scan(|b|, MovePred(b, t, o, name))[0];
        assert InBounds(|b|, p) && CanPlaceAt(b, t, o, name, p);
      }
    }
  }

  /**
   * Once the board is past the opening (or the border rule is off), the game is
   * over exactly when the board is full or no rack tile in any turn has a valid
   * placement anywhere.
   */
  lemma GameOverAfterOpening(b: Board, racks: seq<seq<Tile>>, o: RulesetOptions, name: string)
    requires !OpenBoard(b) || !o.enableBorderRule
    ensures GameOver(b, racks, o, name) <==>
      IsFull(b) ||
      forall i, j, r, p :: 0 <= i < |racks| && 0 <= j < |racks[i]| && 0 <= r < 4 ==>
        !IsValidPlacement(b, p, Turned(racks[i][j], r), o, name)
  {
    GameOverSpec(b, racks, o, name);
    forall i, j, r, p | 0 <= i < |racks| && 0 <= j < |racks[i]| && 0 <= r < 4
      ensures InBounds(|b|, p) && CanPlaceAt(b, Turned(racks[i][j], r), o, name, p) <==>
        IsValidPlacement(b, p, Turned(racks[i][j], r), o, name)
    {
      ValidMovesArePlacements(b, Turned(racks[i][j], r), o, name, p);
    }
  }

  /** A game on a fresh board is not over while some player holds a tile. */
  lemma FreshBoardNotOver(n: nat, racks: seq<seq<Tile>>, o: RulesetOptions, name: string, i: nat)
    requires n >= 1 && i < |racks| && racks[i] != []
    ensures !GameOver(EmptyBoard(n), racks, o, name)
  {
    var b := EmptyBoard(n);
    var t := Turned(racks[i][0], 0);
    OpenBoardListsEmptyCells(b, t, o, name, Pos(0, 0));
    MovesSpec(b, t, o, name);
    assert Pos(0, 0) in Scan(|b|, MovePred(b, t, o, name));
    assert At(b, Pos(0, 0)).None?;
  }

  /** The players' racks, in seat order. */
  function Racks(r: seq<Seat>): (racks: seq<seq<Tile>>)
    ensures |racks| == |r| && forall i :: 0 <= i < |r| ==> racks[i] == r[i].tiles
  {
    seq(|r|, i requires 0 <= i < |r| => r[i].tiles)
  }

  /** Every player's id, name and score, in seat order. */
  function StandingsOf(r: seq<Seat>): (s: seq<Standing>)
    ensures |s| == |r| && forall i :: 0 <= i < |r| ==> s[i] == Standing(r[i].id, r[i].name, r[i].score)
  {
    seq(|r|, i requires 0 <= i < |r| => Standing(r[i].id, r[i].name, r[i].score))
  }

  /** What `if (this.isGameOver()) this.endGame()` emits on board `b` with players `r`. */
  function GameEndEvents(b: Board, r: seq<Seat>, o: RulesetOptions, name: string): seq<Event> {
    if GameOver(b, Racks(r), o, name) then [GameEnd(SortByScore(StandingsOf(r)))] else []
  }

  /** Scores never increase along the standings. */
  predicate NonIncreasing(s: seq<Standing>) {
    forall i, j :: 0 <= i < j < |s| ==> s[i].score >= s[j].score
  }

  /** The entries that scored exactly `v`, in their order. */
  function WithScore(s: seq<Standing>, v: int): seq<Standing> {
    if s == [] then [] else (if s[0].score == v then [s[0]] else []) + WithScore(s[1..], v)
  }

  /** `x` goes after every entry that scored at least as much. */
  function Insert(s: seq<Standing>, x: Standing): seq<Standing> {
    if s == [] then [x]
    else if s[0].score < x.score then [x] + s
    else [s[0]] + Insert(s[1..], x)
  }

  /**
   * `finalScores.sort((a, b) => b.score - a.score)`: a stable sort by
   * decreasing score, written as an insertion sort.
   */
  function SortByScore(s: seq<Standing>): seq<Standing> {
    if s == [] then [] else Insert(SortByScore(s[..|s| - 1]), s[|s| - 1])
  }

  lemma {:induction false} WithScoreConcat(a: seq<Standing>, c: seq<Standing>, v: int)
    ensures WithScore(a + c, v) == WithScore(a, v) + WithScore(c, v)
  {
    if a != [] {
      assert (a + c)[0] == a[0] && (a + c)[1..] == a[1..] + c;
      WithScoreConcat(a[1..], c, v);
    } else {
      assert a + c == c;
    }
  }

  lemma {:induction false} WithScoreNone(s: seq<Standing>, v: int)
    requires forall i :: 0 <= i < |s| ==> s[i].score < v
    ensures WithScore(s, v) == []
  {
    if s != [] {
      WithScoreNone(s[1..], v);
    }
  }

  /** Inserting adds exactly `x`. */
  lemma {:induction false} InsertMultiset(s: seq<Standing>, x: Standing)
    ensures multiset(Insert(s, x)) == multiset(s) + multiset{x}
  {
    if s != [] && s[0].score >= x.score {
      InsertMultiset(s[1..], x);
      assert s == [s[0]] + s[1..];
    }
  }

  /** Inserting into sorted standings keeps them sorted. */
  lemma {:induction false} InsertSorted(s: seq<Standing>, x: Standing)
    requires NonIncreasing(s)
    ensures NonIncreasing(Insert(s, x))
  {
    if s != [] && s[0].score >= x.score {
      var rest := Insert(s[1..], x);
      InsertSorted(s[1..], x);
      InsertMultiset(s[1..], x);
      forall k | 0 <= k < |rest| ensures s[0].score >= rest[k].score {
        assert rest[k] in multiset(rest);
        if rest[k] != x {
          assert rest[k] in multiset(s[1..]);
          var j :| 0 <= j < |s[1..]| && s[1..][j] == rest[k];
          assert s[j + 1] == rest[k];
        }
      }
    }
  }

  /** `x` goes after every entry with the same score, and nothing else moves past another. */
  lemma {:induction false} InsertStable(s: seq<Standing>, x: Standing, v: int)
    requires NonIncreasing(s)
    ensures WithScore(Insert(s, x), v) == WithScore(s, v) + (if x.score == v then [x] else [])
  {
    if s == [] {
    } else if s[0].score < x.score {
      assert ([x] + s)[1..] == s;
      if x.score == v {
        WithScoreNone(s, v);
      }
    } else {
      var rest := Insert(s[1..], x);
      InsertStable(s[1..], x, v);
      assert ([s[0]] + rest)[1..] == rest;
    }
  }

  /** The sorted standings run from the highest score down. */
  lemma {:induction false} SortByScoreSorted(s: seq<Standing>)
    ensures NonIncreasing(SortByScore(s))
  {
    if s != [] {
      SortByScoreSorted(s[..|s| - 1]);
      InsertSorted(SortByScore(s[..|s| - 1]), s[|s| - 1]);
    }
  }

  /** The sorted standings hold the same entries. */
  lemma {:induction false} SortByScoreMultiset(s: seq<Standing>)
    ensures multiset(SortByScore(s)) == multiset(s)
  {
    if s != [] {
      var init, last := s[..|s| - 1], s[|s| - 1];
      assert s == init + [last];
      SortByScoreMultiset(init);
      InsertMultiset(SortByScore(init), last);
    }
  }

  /** The sort is stable: the entries that scored `v` keep their original order. */
  lemma {:induction false} SortByScoreStable(s: seq<Standing>, v: int)
    ensures WithScore(SortByScore(s), v) == WithScore(s, v)
  {
    if s != [] {
      var init, last := s[..|s| - 1], s[|s| - 1];
      assert s == init + [last];
      SortByScoreStable(init, v);
      SortByScoreSorted(init);
      InsertStable(SortByScore(init), last, v);
      WithScoreConcat(init, [last], v);
      assert [last][1..] == [];
    }
  }

  /** The `calculateScore` result of the configured system for `t` at `p`, before the board changes. */
  ghost function ScoreOf(s: Scorer, b: Board, p: Pos, t: Tile, playerId: string, color: Option<string>): int
    requires IsSquare(b) && InBounds(|b|, p)
    reads if s.Street? then {s.street} else {}
  {
    match s
    case Standard(o) => StandardScoring.Score(o, b, p, t)
    case Enhanced(o) => EnhancedScoring.Score(o, b, p, t)
    case Street(ss) =>
      StreetScoring.BaseScore(ss.scores, ss.centerPatternScores, ss.starterTileMultiplier, b, p, t) +
      StreetScoring.PathCredit(PathScoring.LongestPath(Put(b, p, Some(t)), color),
                               StreetScoring.RecordOf(ss.bestPaths, playerId), ss.pathScoring.pointsPerTile)
  }

  /** The events scoring emits: the street scorer announces the longest path it found. */
  ghost function ScoringEvents(s: Scorer, b: Board, p: Pos, t: Tile, playerId: string, color: Option<string>): seq<Event>
    requires IsSquare(b) && InBounds(|b|, p)
  {
    if s.Street? then StreetScoring.PathEvents(playerId, PathScoring.LongestPath(Put(b, p, Some(t)), color)) else []
  }

  /** `scoringSystem.getFinalScore(gameState, player)`: every system returns the player's score. */
  function FinalScore(s: Scorer, player: Player): (v: int)
    reads player
    ensures v == player.score
  {
    match s
    case Street(ss) => ss.GetFinalScore(player)
    case _ => Scoring.GetFinalScore(player)
  }

  /**
   * The game as a value: the board, the seats (as objects and as what they
   * hold), whose turn it is, the selection and its rotation, whether the first
   * move is still to come, everything emitted so far and how many random tile
   * draws have been used.
   */
  datatype Game = Game(cells: Board, players: seq<Player>, seats: seq<Seat>, turn: int, selected: Option<Tile>,
                       rotation: nat, firstMove: bool, events: seq<Event>, drawn: nat)

  /** A game state the steps of a placement apply to: a square board and one record per seat. */
  predicate Shaped(g: Game) {
    IsSquare(g.cells) && |g.seats| == |g.players|
  }

  /** `boardState[y][x] = rotatedTile`, then `updatePlayerScore(moverId, score)`. */
  function CreditStep(g: Game, p: Pos, t: Tile, score: int, moverId: string): Game
    requires Shaped(g) && InBounds(|g.cells|, p)
  {
    var m := IndexOfPlayer(g.players, moverId);
    g.(cells := Put(g.cells, p, Some(t)), seats := Credited(g.seats, m, score),
       events := g.events + (if m == -1 then [] else [ScoreUpdate(moverId, g.seats[m].score + score)]))
  }

  /** `replaceTile(moverId, tileId, newTile)` with `newTile` made from the next draw. */
  function RefillStep(g: Game, moverId: string, tileId: string, newTile: Tile): Game {
    g.(seats := Refilled(g.seats, IndexOfPlayer(g.players, moverId), tileId, newTile), drawn := g.drawn + 1)
  }

  /** `nextTurn()`: the next seat, no selection, the turn change and, when the game is over, its end. */
  function TurnStep(g: Game, o: RulesetOptions, name: string): Game
    requires |g.players| > 0 && 0 <= g.turn
  {
    var next := NextSeat(g.turn, |g.players|);
    g.(turn := next, selected := None, rotation := 0,
       events := g.events + [TurnChange(g.players[next].id)] + GameEndEvents(g.cells, g.seats, o, name))
  }

  /**
   * The end of `placeTile`: the selection is reset, the first move is over,
   * the turn passes, and the placement and the score of the player who moved
   * are announced.
   */
  function FinishStep(g: Game, p: Pos, t: Tile, score: int, o: RulesetOptions, name: string): Game
    requires Shaped(g) && 0 <= g.turn < |g.players|
  {
    var h := TurnStep(g.(selected := None, rotation := 0, firstMove := false), o, name);
    h.(events := h.events + [TilePlaced(p, t, None, Some(score))] + [ScoreUpdate(g.players[g.turn].id, g.seats[g.turn].score)])
  }

  /**
   * A successful `placeTile` once the score is known and the replacement tile
   * `newTile` drawn: credit, refill, finish.
   */
  function PlaceStep(g: Game, p: Pos, t: Tile, score: int, newTile: Tile, o: RulesetOptions, name: string): Game
    requires Shaped(g) && InBounds(|g.cells|, p) && 0 <= g.turn < |g.players|
  {
    var moverId := g.players[g.turn].id;
    FinishStep(RefillStep(CreditStep(g, p, t, score, moverId), moverId, t.id, newTile), p, t, score, o, name)
  }

  /**
   * What a successful placement does to the board and the turn: the tile is in
   * its cell, one more draw is used, the turn passes to the next seat, the
   * selection is cleared and the first move is over.
   */
  lemma PlaceStepState(g: Game, p: Pos, t: Tile, score: int, newTile: Tile, o: RulesetOptions, name: string)
    requires Shaped(g) && InBounds(|g.cells|, p) && 0 <= g.turn < |g.players|
    ensures var r := PlaceStep(g, p, t, score, newTile, o, name);
      Shaped(r) && r.cells == Put(g.cells, p, Some(t)) && r.players == g.players && r.drawn == g.drawn + 1 &&
      r.turn == NextSeat(g.turn, |g.players|) && r.selected.None? && r.rotation == 0 && !r.firstMove
  {
  }

  /**
   * The seats after a successful placement: the first seat with the mover's id,
   * never after the mover, gains the points and swaps the placed tile for a
   * newly drawn one at the end of its rack; every other seat is unchanged.
   */
  lemma PlaceStepSeats(g: Game, p: Pos, t: Tile, score: int, newTile: Tile, o: RulesetOptions, name: string)
    requires Shaped(g) && InBounds(|g.cells|, p) && 0 <= g.turn < |g.players|
    ensures var r := PlaceStep(g, p, t, score, newTile, o, name);
      var m := IndexOfPlayer(g.players, g.players[g.turn].id);
      0 <= m <= g.turn && |r.seats| == |g.seats| &&
      forall j :: 0 <= j < |g.seats| ==>
        r.seats[j] == if j == m then g.seats[j].(score := g.seats[j].score + score,
                                                 tiles := WithoutTile(g.seats[j].tiles, t.id) + [newTile])
                      else g.seats[j]
  {
    var m := IndexOfPlayer(g.players, g.players[g.turn].id);
    CreditedSpec(g.seats, m, score);
    RefilledSpec(Credited(g.seats, m, score), m, t.id, newTile);
  }

  /**
   * The events of a successful placement, in order: the credited seat's new
   * score, the turn change, the game's end when it is over, the placement and
   * the mover's score.
   */
  lemma PlaceStepEvents(g: Game, p: Pos, t: Tile, score: int, newTile: Tile, o: RulesetOptions, name: string)
    requires Shaped(g) && InBounds(|g.cells|, p) && 0 <= g.turn < |g.players|
    ensures var r, moverId := PlaceStep(g, p, t, score, newTile, o, name), g.players[g.turn].id;
      var m := IndexOfPlayer(g.players, moverId);
      r.events == g.events + [ScoreUpdate(moverId, g.seats[m].score + score)] +
        [TurnChange(g.players[r.turn].id)] + GameEndEvents(r.cells, r.seats, o, name) +
        [TilePlaced(p, t, None, Some(score))] + [ScoreUpdate(moverId, r.seats[g.turn].score)]
  {
    var moverId := g.players[g.turn].id;
    var m := IndexOfPlayer(g.players, moverId);
    var c := CreditStep(g, p, t, score, moverId);
    assert c.events == g.events + [ScoreUpdate(moverId, g.seats[m].score + score)];
    var f := RefillStep(c, moverId, t.id, newTile);
    assert f.events == c.events && f.turn == g.turn && f.players == g.players;
    var h := TurnStep(f.(selected := None, rotation := 0, firstMove := false), o, name);
    assert h.events == c.events + [TurnChange(g.players[h.turn].id)] + GameEndEvents(f.cells, f.seats, o, name);
    var r := h.(events := h.events + [TilePlaced(p, t, None, Some(score))] + [ScoreUpdate(moverId, f.seats[g.turn].score)]);
    assert r == PlaceStep(g, p, t, score, newTile, o, name);
    assert r.seats == f.seats && r.cells == f.cells && r.turn == h.turn;
  }

  /** The state of one game. */
  class GameState {
    const boardSize: nat
    const rackSize: nat
    const tileSet: TileSet
    const ruleset: RulesetOptions
    const scorer: Scorer
    /** `boardState`. */
    const grid: BoardState
    const playerManager: PlayerManager
    /** Everything emitted to the game's listeners. */
    const log: EventLog
    /** The random draws new tiles are made from. */
    const src: TileSource
    var selectedTile: Option<Tile>
    var currentRotation: nat
    var firstMove: bool

    /** The scorer's own objects, which scoring may change. */
    function ScorerFrame(): set<object> {
      if scorer.Street? then {scorer.street, scorer.street.pathScoring} else {}
    }

    /** The game's state as a value; the scorer's own records are not part of it. */
    ghost function Model(): Game
      reads this, grid, playerManager, playerManager.players, log, src
    {
      Game(grid.cells, playerManager.players, Roster(playerManager.players), playerManager.currentPlayerIndex,
           selectedTile, currentRotation, firstMove, log.events, src.used)
    }

    /** The board is square and of the configured size, and the tile set is well formed. */
    ghost predicate BoardValid()
      reads this, grid
    {
      boardSize >= 1 && IsSquare(grid.cells) && |grid.cells| == boardSize && WellFormed(tileSet)
    }

    /**
     * The board is square and of the configured size, the rotation is a quarter
     * turn count, the seats are distinct and the turn index points at one when
     * there are any.
     */
    ghost predicate Valid()
      reads this, grid, playerManager, ScorerFrame()
    {
      BoardValid() && rackSize >= 1 && currentRotation < 4 &&
      playerManager.Valid() &&
      (|playerManager.players| == 0 || playerManager.currentPlayerIndex < |playerManager.players|) &&
      (scorer.Street? ==> scorer.street.Valid())
    }

    /**
     * `new GameState(config)`: sizes default to 9 and 5 when missing or 0, the
     * board starts empty, the players are seated when configured, and the
     * initial tiles are seeded. `ids` and `shuffle` stand for `generateId` and
     * `Math.random`.
     */
    constructor (config: GameConfig, src: TileSource, shuffle: nat -> GameUtils.Unit, ids: nat -> string)
      requires WellFormed(config.tileSet)
      requires config.boardSize.Some? ==> config.boardSize.value >= 0
      requires config.rackSize.Some? ==> config.rackSize.value >= 0
      requires config.scorer.Street? ==> config.scorer.street.Valid()
      modifies src
      ensures Valid() && this.src == src && fresh(grid) && fresh(playerManager) && fresh(log)
      ensures boardSize == NumberOr(config.boardSize, GameUtils.DEFAULT_BOARD_SIZE)
      ensures rackSize == NumberOr(config.rackSize, GameUtils.DEFAULT_RACK_SIZE)
      ensures tileSet == config.tileSet && ruleset == config.ruleset && scorer == config.scorer
      ensures selectedTile.None? && currentRotation == 0 && firstMove
      ensures playerManager.currentPlayerIndex == 0
      ensures config.players.None? ==> playerManager.players == []
      ensures config.players.Some? ==>
        (forall i :: 0 <= i < |playerManager.players| ==> fresh(playerManager.players[i])) &&
        PlayerManager.Seated(Roster(playerManager.players), config.players.value, rackSize, tileSet, src.draws, old(src.used), ids)
      ensures exists seeds ::
        InitialTiles.Seeding(boardSize, seeds, ruleset, Name(tileSet)) && InitialPlacement(config.initialTiles, boardSize, seeds) &&
        grid.cells == PutSeeds(EmptyBoard(boardSize), seeds) && log.events == SeedEvents(seeds)
      ensures config.initialTiles.None? || !PassesGuard(config.initialTiles.value) ==>
        grid.cells == EmptyBoard(boardSize) && log.events == []
    {
      var size := NumberOr(config.boardSize, GameUtils.DEFAULT_BOARD_SIZE);
      var rack := NumberOr(config.rackSize, GameUtils.DEFAULT_RACK_SIZE);
      boardSize := size;
      rackSize := rack;
      tileSet := config.tileSet;
      ruleset := config.ruleset;
      scorer := config.scorer;
      grid := new BoardState(size);
      selectedTile := None;
      currentRotation := 0;
      firstMove := true;
      log := new EventLog();
      playerManager := new PlayerManager();
      this.src := src;
      new;
      ghost var placed := Populate(config, shuffle, ids);
      if config.initialTiles.None? || !PassesGuard(config.initialTiles.value) {
        assert placed == [];
      }
    }

    /** The rest of the constructor: the players are seated, then the initial tiles placed. */
    method Populate(config: GameConfig, shuffle: nat -> GameUtils.Unit, ids: nat -> string) returns (ghost placed: seq<InitialTiles.Seed>)
      requires Valid()
      requires grid.cells == EmptyBoard(boardSize) && log.events == []
      requires playerManager.players == [] && playerManager.currentPlayerIndex == 0
      modifies playerManager, grid, log, src
      ensures Valid() && playerManager.currentPlayerIndex == 0
      ensures config.players.None? ==> playerManager.players == []
      ensures config.players.Some? ==>
        (forall i :: 0 <= i < |playerManager.players| ==> fresh(playerManager.players[i])) &&
        PlayerManager.Seated(Roster(playerManager.players), config.players.value, rackSize, tileSet, src.draws, old(src.used), ids)
      ensures InitialTiles.Seeding(boardSize, placed, ruleset, Name(tileSet)) && InitialPlacement(config.initialTiles, boardSize, placed)
      ensures grid.cells == PutSeeds(EmptyBoard(boardSize), placed) && log.events == SeedEvents(placed)
    {
      if config.players.Some? {
        playerManager.InitializePlayers(config.players.value, rackSize, tileSet, src, ids);
      }
      ghost var seats := Roster(playerManager.players);
      placed := PlaceConfiguredTiles(config.initialTiles, shuffle);
      assert Roster(playerManager.players) == seats;
    }

    /** `if (config.initialTiles) this.initializeBoard(config.initialTiles)`. */
    method PlaceConfiguredTiles(c: Option<InitialTilesConfig>, shuffle: nat -> GameUtils.Unit) returns (ghost placed: seq<InitialTiles.Seed>)
      requires BoardValid() && grid.cells == EmptyBoard(boardSize) && log.events == []
      modifies grid, log, src
      ensures BoardValid() && InitialTiles.Seeding(boardSize, placed, ruleset, Name(tileSet))
      ensures InitialPlacement(c, boardSize, placed)
      ensures grid.cells == PutSeeds(EmptyBoard(boardSize), placed) && log.events == SeedEvents(placed)
    {
      if c.Some? && TruthyTiles(c.value) {
        placed := InitializeBoard(c.value, shuffle);
      } else {
        placed := [];
        assert InitialTiles.Seeding(boardSize, [], ruleset, Name(tileSet));
        assert grid.cells == PutSeeds(EmptyBoard(boardSize), []) && log.events == SeedEvents([]);
      }
    }

    /**
     * `initializeBoard(config)`: past the guard, the missing fields default to
     * type 'random', count 0 and style 'border', and the seeds
     * `placeInitialTiles` returns are written into the board, each announced
     * by a `tilePlaced` event. The guard turns every bare number away, so the
     * conversion of a number into `{type: 'random', count}` never runs and is
     * not part of the model.
     */
    method InitializeBoard(config: InitialTilesConfig, shuffle: nat -> GameUtils.Unit) returns (ghost placed: seq<InitialTiles.Seed>)
      requires BoardValid()
      modifies grid, log, src
      ensures BoardValid() && InitialTiles.Seeding(boardSize, placed, ruleset, Name(tileSet))
      ensures grid.cells == PutSeeds(old(grid.cells), placed) && log.events == old(log.events) + SeedEvents(placed)
      ensures !PassesGuard(config) ==> placed == [] && src.used == old(src.used)
      ensures config.TileCount? ==> placed == []
      ensures InitialPlacement(Some(config), boardSize, placed)
    {
      if !TruthyTiles(config) || (!TruthyString(TypeField(config)) && !TruthyNumber(CountField(config))) {
        assert InitialTiles.Seeding(boardSize, [], ruleset, Name(tileSet));
        assert grid.cells == PutSeeds(old(grid.cells), []);
        return [];
      }
      var kind := StringOr(TypeField(config), "random");
      var count := NumberOr(CountField(config), 0);
      var style := StringOr(StyleField(config), "border");
      var seeds := InitialTiles.PlaceInitialTiles(boardSize, kind, count, style, ruleset, tileSet, src, shuffle);
      WriteSeeds(seeds);
      placed := seeds;
    }

    /** `placedTiles.forEach(...)`: each seed goes into its cell and is announced. */
    method WriteSeeds(seeds: seq<InitialTiles.Seed>)
      requires IsSquare(grid.cells) && forall i :: 0 <= i < |seeds| ==> InBounds(|grid.cells|, seeds[i].position)
      modifies grid, log
      ensures grid.cells == PutSeeds(old(grid.cells), seeds)
      ensures log.events == old(log.events) + SeedEvents(seeds)
    {
      var i := 0;
      while i < |seeds|
        invariant 0 <= i <= |seeds|
        invariant grid.cells == PutSeeds(old(grid.cells), seeds[..i])
        invariant log.events == old(log.events) + SeedEvents(seeds[..i])
      {
        assert seeds[..i + 1][..i] == seeds[..i];
        grid.Set(seeds[i].position, Some(seeds[i].tile));
        log.Emit(TilePlaced(seeds[i].position, seeds[i].tile, None, None));
        i := i + 1;
      }
      assert seeds[..|seeds|] == seeds;
    }

    /** `selectTile(tile)`: the selection changes and its rotation starts again from 0. */
    method SelectTile(tile: Option<Tile>)
      requires Valid()
      modifies this, log
      ensures Valid()
      ensures selectedTile == tile && currentRotation == 0 && firstMove == old(firstMove)
      ensures log.events == old(log.events) + [TileSelected(tile)]
    {
      selectedTile := tile;
      currentRotation := 0;
      log.Emit(TileSelected(tile));
    }

    /**
     * `rotateTile()`: with nothing selected it answers `null` and changes
     * nothing; otherwise the rotation advances by a quarter turn, the valid
     * moves of the rotated copy are announced and the new rotation returned.
     */
    method RotateTile() returns (rotation: Option<nat>)
      requires Valid()
      modifies this, log
      ensures Valid() && selectedTile == old(selectedTile) && firstMove == old(firstMove)
      ensures old(selectedTile).None? ==>
        rotation.None? && currentRotation == old(currentRotation) && log.events == old(log.events)
      ensures old(selectedTile).Some? ==>
        currentRotation == (old(currentRotation) + 1) % 4 && rotation == Some(currentRotation) &&
        log.events == old(log.events) + [TileRotated(currentRotation,
          Scan(boardSize, MovePred(grid.cells, RotatedCopy(selectedTile.value, currentRotation), ruleset, Name(tileSet))))]
    {
      if selectedTile.None? {
        return None;
      }
      currentRotation := (currentRotation + 1) % 4;
      assert Valid();
      var sides := GameUtils.RotateArray(selectedTile.value.sides, currentRotation);
      var rotatedTile := selectedTile.value.(sides := sides, rotation := currentRotation);
      assert rotatedTile == RotatedCopy(selectedTile.value, currentRotation);
      var validMoves := GetValidMoves(Some(rotatedTile), false);
      assert validMoves == Scan(boardSize, MovePred(grid.cells, rotatedTile, ruleset, Name(tileSet)));
      log.Emit(TileRotated(currentRotation, validMoves));
      return Some(currentRotation);
    }

    /** The tile `getValidMoves` asks the ruleset about; `same` says it is the selected object itself. */
    function CheckedTile(t: Tile, same: bool): Tile
      reads this
    {
      if currentRotation > 0 && same then Turned(t, currentRotation) else t
    }

    /**
     * `getValidMoves(tile)`: none for no tile; otherwise the ruleset's moves,
     * for the selected tile itself shifted once more by the current rotation.
     */
    method GetValidMoves(tile: Option<Tile>, same: bool) returns (moves: seq<Pos>)
      requires Valid() && (same ==> tile == selectedTile)
      ensures tile.None? ==> moves == []
      ensures tile.Some? ==>
        moves == Scan(boardSize, MovePred(grid.cells, CheckedTile(tile.value, same), ruleset, Name(tileSet)))
    {
      if tile.None? {
        return [];
      }
      var tileToCheck := tile.value;
      if currentRotation > 0 && same {
        var sides := GameUtils.RotateArray(tile.value.sides, currentRotation);
        tileToCheck := tile.value.(sides := sides);
      }
      moves := BasicRules.GetValidMoves(grid.cells, tileToCheck, ruleset, Name(tileSet));
    }

    /** The tile `placeTile` would put down: the selection, its own sides, the current rotation. */
    function Placement(): Tile
      requires selectedTile.Some?
      reads this
    {
      selectedTile.value.(rotation := currentRotation)
    }

    /** `placeTile(position)` succeeds: a tile is selected, the cell is free and the ruleset accepts it. */
    ghost predicate Placeable(p: Pos)
      reads this, grid
    {
      selectedTile.Some? && At(grid.cells, p).None? &&
      IsValidPlacement(grid.cells, p, Placement(), ruleset, Name(tileSet))
    }

    /**
     * `placeTile(position)`. It fails, changing nothing, when no tile is
     * selected, when the cell is taken and when the ruleset refuses the
     * placement, checked in that order. Otherwise the score is computed on the
     * board as it was (the scorer's events come first) and the placement goes
     * ahead as `PlaceStep` says, with a newly generated tile for the mover's
     * seat. A row outside the board makes the source throw, as does a
     * successful placement with no players.
     */
    method PlaceTile(p: Pos) returns (r: PlaceResult)
      requires Valid()
      requires selectedTile.Some? ==> 0 <= p.y < boardSize
      requires Placeable(p) ==> |playerManager.players| > 0
      modifies this, grid, playerManager, playerManager.players, log, src, ScorerFrame()
      ensures Valid()
      ensures old(selectedTile).None? ==> r == Failure("No tile selected")
      ensures old(selectedTile).Some? && old(At(grid.cells, p)).Some? ==> r == Failure("Position already occupied")
      ensures old(selectedTile).Some? && old(At(grid.cells, p)).None? && !old(Placeable(p)) ==>
        r == Failure("Invalid placement")
      ensures r.Success? <==> old(Placeable(p))
      ensures r.Failure? ==>
        unchanged(this, grid, playerManager, log, src) && unchanged(playerManager.players) && unchanged(ScorerFrame())
      ensures r.Success? ==>
        var cur := old(playerManager.currentPlayerIndex);
        InBounds(boardSize, p) && 0 <= cur < |old(playerManager.players)| &&
        var moverId := old(playerManager.players)[cur].id;
        r.score == old(ScoreOf(scorer, grid.cells, p, Placement(), moverId, playerManager.PlayerColor(moverId))) &&
        Model() == PlaceStep(old(Model()).(events := old(log.events) +
                               old(ScoringEvents(scorer, grid.cells, p, Placement(), moverId, playerManager.PlayerColor(moverId)))),
                             p, old(Placement()), r.score,
                             GenerateTile(tileSet, src.Draw(old(src.used)), Some(cur), |old(playerManager.players)|),
                             ruleset, Name(tileSet))
    {
      if selectedTile.None? {
        return Failure("No tile selected");
      }
      var row := grid.cells[p.y];
      assert row == grid.cells[p.y];
      if 0 <= p.x < |row| && row[p.x].Some? {
        return Failure("Position already occupied");
      }
      assert At(grid.cells, p).None?;
      var rotatedTile := selectedTile.value.(rotation := currentRotation);
      if !IsValidPlacement(grid.cells, p, rotatedTile, ruleset, Name(tileSet)) {
        return Failure("Invalid placement");
      }
      assert InBounds(boardSize, p);
      var currentPlayer := playerManager.players[playerManager.currentPlayerIndex];
      var score := ScorePlacement(p, rotatedTile, currentPlayer.id);
      Commit(p, rotatedTile, score, currentPlayer);
      r := Success(score);
    }

    /** `scoringSystem.calculateScore(this, position, rotatedTile)`: the board is left as it was. */
    method ScorePlacement(p: Pos, t: Tile, moverId: string) returns (score: int)
      requires Valid() && InBounds(boardSize, p) && At(grid.cells, p).None?
      modifies grid, log, ScorerFrame()
      ensures Valid() && Model() == old(Model()).(events := log.events)
      ensures score == old(ScoreOf(scorer, grid.cells, p, t, moverId, playerManager.PlayerColor(moverId)))
      ensures log.events == old(log.events) + old(ScoringEvents(scorer, grid.cells, p, t, moverId, playerManager.PlayerColor(moverId)))
    {
      match scorer
      case Standard(o) =>
        score := StandardScoring.CalculateScore(o, grid.cells, p, t);
      case Enhanced(o) =>
        score := EnhancedScoring.CalculateScore(o, grid.cells, p, t);
      case Street(ss) =>
        score := ScoreStreet(ss, p, t, moverId);
    }

    /**
     * The street scorer's `calculateScore`: the tile is written to find the
     * mover's longest path and taken away again, which leaves the board as it was.
     */
    method ScoreStreet(ss: StreetScoring.StreetScoring, p: Pos, t: Tile, moverId: string) returns (score: int)
      requires Valid() && scorer == Street(ss) && InBounds(boardSize, p) && At(grid.cells, p).None?
      modifies grid, log, ss, ss.pathScoring
      ensures Valid() && Model() == old(Model()).(events := log.events)
      ensures var path := PathScoring.LongestPath(Put(old(grid.cells), p, Some(t)), old(playerManager.PlayerColor(moverId)));
        score == old(StreetScoring.BaseScore(ss.scores, ss.centerPatternScores, ss.starterTileMultiplier, grid.cells, p, t)) +
                 StreetScoring.PathCredit(path, StreetScoring.RecordOf(old(ss.bestPaths), moverId), ss.pathScoring.pointsPerTile) &&
        log.events == old(log.events) + StreetScoring.PathEvents(moverId, path)
    {
      ghost var g0 := Model();
      var color := playerManager.PlayerColor(moverId);
      score := ss.CalculateScore(grid, p, t, moverId, color, log);
      PutAtIdentity(old(grid.cells), p);
      assert grid.cells == g0.cells;
    }

    /** The rest of `placeTile` once the score is known: commit, credit, refill, pass the turn, announce. */
    method Commit(p: Pos, t: Tile, score: int, mover: Player)
      requires Valid() && InBounds(boardSize, p) && selectedTile.Some? && t.id == selectedTile.value.id
      requires 0 <= playerManager.currentPlayerIndex < |playerManager.players|
      requires mover == playerManager.players[playerManager.currentPlayerIndex]
      modifies this, grid, playerManager, playerManager.players, log, src
      ensures Valid()
      ensures Model() == PlaceStep(old(Model()), p, t, score,
                                   GenerateTile(tileSet, src.Draw(old(src.used)), Some(old(playerManager.currentPlayerIndex)),
                                                |playerManager.players|),
                                   ruleset, Name(tileSet))
    {
      CreditMover(p, t, score, mover);
      // `players.indexOf(currentPlayer)`: the seats are distinct, so this is the current seat.
      var playerIndex := playerManager.currentPlayerIndex;
      var newTile := Refill(playerIndex, mover);
      assert Valid();
      Advance(p, t, score, mover);
    }

    /** `boardState[y][x] = rotatedTile` and `updatePlayerScore(currentPlayer.id, score)`. */
    method CreditMover(p: Pos, t: Tile, score: int, mover: Player)
      requires Valid() && InBounds(boardSize, p)
      modifies grid, playerManager.players, log
      ensures Valid() && Model() == CreditStep(old(Model()), p, t, score, mover.id)
    {
      ghost var g0 := Model();
      grid.Set(p, Some(t));
      assert Valid() && Model() == g0.(cells := Put(g0.cells, p, Some(t)));
      playerManager.UpdatePlayerScore(mover.id, score, log);
    }

    /**
     * `generateTile(playerIndex, players.length)` and
     * `replaceTile(currentPlayer.id, selectedTile.id, newTile)`; the new tile is returned.
     */
    method Refill(playerIndex: nat, mover: Player) returns (newTile: Tile)
      requires Valid() && selectedTile.Some?
      modifies src, playerManager.players
      ensures newTile == GenerateTile(tileSet, src.Draw(old(src.used)), Some(playerIndex), |playerManager.players|)
      ensures Model() == RefillStep(old(Model()), mover.id, selectedTile.value.id, newTile)
    {
      ghost var g0 := Model();
      newTile := src.Generate(tileSet, Some(playerIndex), |playerManager.players|);
      assert Model() == g0.(drawn := g0.drawn + 1);
      playerManager.ReplaceTile(mover.id, selectedTile.value.id, newTile);
      assert Model() == g0.(seats := Refilled(g0.seats, IndexOfPlayer(g0.players, mover.id), selectedTile.value.id, newTile),
                            drawn := g0.drawn + 1);
    }

    /**
     * The end of `placeTile`: the selection is reset, the first move is over,
     * the turn passes on, and the placement and the mover's score are announced.
     */
    method Advance(p: Pos, t: Tile, score: int, mover: Player)
      requires Valid() && 0 <= playerManager.currentPlayerIndex < |playerManager.players|
      requires mover == playerManager.players[playerManager.currentPlayerIndex]
      modifies this, playerManager, log
      ensures Valid() && Model() == FinishStep(old(Model()), p, t, score, ruleset, Name(tileSet))
    {
      ghost var g0 := Model();
      assert g0.seats[g0.turn].score == mover.score;
      selectedTile := None;
      currentRotation := 0;
      if firstMove {
        firstMove := false;
      }
      assert Model() == g0.(selected := None, rotation := 0, firstMove := false);
      var next := NextTurn();
      Announce(p, t, score, mover);
    }

    /** `emit('tilePlaced', ...)` and `emit('scoreUpdate', ...)` for the mover. */
    method Announce(p: Pos, t: Tile, score: int, mover: Player)
      modifies log
      ensures log.events == old(log.events) + [TilePlaced(p, t, None, Some(score))] + [ScoreUpdate(mover.id, mover.score)]
      ensures Model() == old(Model()).(events := log.events)
    {
      log.Emit(TilePlaced(p, t, None, Some(score)));
      log.Emit(ScoreUpdate(mover.id, mover.score));
    }

    /**
     * `nextTurn()`: the turn passes to the next seat, the selection is cleared,
     * the change is announced and, when the game is over, the game ends.
     */
    method NextTurn() returns (next: Player)
      requires Valid() && |playerManager.players| > 0
      modifies this, playerManager, log
      ensures Valid() && Model() == TurnStep(old(Model()), ruleset, Name(tileSet))
      ensures next == playerManager.players[playerManager.currentPlayerIndex]
    {
      ghost var g0 := Model();
      next := playerManager.NextTurn();
      selectedTile := None;
      currentRotation := 0;
      assert Valid();
      log.Emit(TurnChange(next.id));
      ghost var g1 := Model();
      assert g1 == g0.(turn := NextSeat(g0.turn, |g0.players|), selected := None, rotation := 0,
                       events := g0.events + [TurnChange(next.id)]);
      if IsGameOver() {
        EndGame();
      }
      assert Model() == g1.(events := g1.events + GameEndEvents(g1.cells, g1.seats, ruleset, Name(tileSet)));
    }

    /** `isGameOver()` on the current board and racks. */
    function IsGameOver(): bool
      reads this, grid, playerManager, playerManager.players
    {
      GameOver(grid.cells, Racks(Roster(playerManager.players)), ruleset, Name(tileSet))
    }

    /** Every player's final score, in seat order. */
    function Standings(ps: seq<Player>): (s: seq<Standing>)
      reads ps
      ensures |s| == |ps| && forall i :: 0 <= i < |ps| ==> s[i] == Standing(ps[i].id, ps[i].name, ps[i].score)
    {
      seq(|ps|, i reads ps requires 0 <= i < |ps| => Standing(ps[i].id, ps[i].name, FinalScore(scorer, ps[i])))
    }

    /** The `gameEnd` standings: every seat once, by decreasing score, ties in seat order. */
    function FinalStandings(): seq<Standing>
      reads this, playerManager, playerManager.players
    {
      SortByScore(StandingsOf(Roster(playerManager.players)))
    }

    /** `endGame()`: the sorted standings are announced. */
    method EndGame()
      modifies log
      ensures log.events == old(log.events) + [GameEnd(FinalStandings())]
      ensures Model() == old(Model()).(events := log.events)
    {
      var finalScores := Standings(playerManager.players);
      assert finalScores == StandingsOf(Roster(playerManager.players));
      finalScores := SortByScore(finalScores);
      log.Emit(GameEnd(finalScores));
    }

    /** `toJSON()`. */
    function ToJSON(): Snapshot
      reads this, grid, playerManager
    {
      Snapshot(boardSize, rackSize, grid.cells, playerManager.players, playerManager.currentPlayerIndex, firstMove)
    }

    /** The snapshot of a valid game has non-zero sizes and the shape of a valid game. */
    lemma SnapshotRestorable()
      requires Valid()
      ensures ToJSON().boardSize >= 1 && ToJSON().rackSize >= 1 && Restorable(ToJSON())
    {
    }

    /** A snapshot a valid game can be rebuilt from. */
    static predicate Restorable(json: Snapshot) {
      json.boardSize >= 1 && json.rackSize >= 1 &&
      IsSquare(json.boardState) && |json.boardState| == json.boardSize &&
      Distinct(json.players) && 0 <= json.currentPlayerIndex &&
      (|json.players| == 0 || json.currentPlayerIndex < |json.players|)
    }

    /**
     * `GameState.fromJSON(json, config)`: a game built from the configuration
     * with the snapshot's sizes, whose board, players, turn index and first-move
     * flag are then replaced by the snapshot's. A snapshot with non-zero sizes
     * comes back unchanged.
     */
    static method FromJSON(json: Snapshot, config: GameConfig, src: TileSource, shuffle: nat -> GameUtils.Unit,
                           ids: nat -> string)
      returns (g: GameState)
      requires WellFormed(config.tileSet)
      requires config.scorer.Street? ==> config.scorer.street.Valid()
      modifies src
      ensures fresh(g) && g.src == src && g.tileSet == config.tileSet && g.ruleset == config.ruleset && g.scorer == config.scorer
      ensures g.ToJSON() == json.(boardSize := NumberOr(Some(json.boardSize), GameUtils.DEFAULT_BOARD_SIZE),
                                  rackSize := NumberOr(Some(json.rackSize), GameUtils.DEFAULT_RACK_SIZE))
      ensures json.boardSize >= 1 && json.rackSize >= 1 ==> g.ToJSON() == json
      ensures Restorable(json) ==> g.Valid()
    {
      g := new GameState(config.(boardSize := Some(json.boardSize), rackSize := Some(json.rackSize)), src, shuffle, ids);
      g.grid.cells := json.boardState;
      g.playerManager.players := json.players;
      g.playerManager.currentPlayerIndex := json.currentPlayerIndex;
      g.firstMove := json.firstMove;
    }
  }
}
