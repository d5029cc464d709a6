/** The basic ruleset: where a tile may go (`basic-rules.js`). */
module BasicRules {
  import opened Common
  import opened Tiles
  import opened Boards

  /** The ruleset's options. `requireAdjacent` is carried but the ruleset never reads it. */
  datatype RulesetOptions = RulesetOptions(
    requireAdjacent: bool,
    allowBlankMatches: bool,
    enableFreePlay: bool,
    enableBorderRule: bool)

  const DefaultOptions := RulesetOptions(true, false, false, false)

  /** `isFirstMove`: every cell is empty or holds a starter tile. */
  predicate IsFirstMove(b: Board) {
    forall y, x :: 0 <= y < |b| && 0 <= x < |b| ==>
      At(b, Pos(x, y)).None? || At(b, Pos(x, y)).value.isStarterTile
  }

  /** `hasAnyStarterTiles`: some cell holds a starter tile. */
  predicate HasAnyStarterTiles(b: Board) {
    exists y, x :: 0 <= y < |b| && 0 <= x < |b| &&
      At(b, Pos(x, y)).Some? && At(b, Pos(x, y)).value.isStarterTile
  }

  /** The opening exception of the rules: the first move when no starter tile was seeded. */
  predicate OpenBoard(b: Board) {
    IsFirstMove(b) && !HasAnyStarterTiles(b)
  }

  /** The exception applies exactly when the board is empty. */
  lemma OpenBoardIffEmpty(b: Board)
    ensures OpenBoard(b) <==> IsEmpty(b)
  {
    if OpenBoard(b) {
      forall y, x | 0 <= y < |b| && 0 <= x < |b| ensures At(b, Pos(x, y)).None? {
      }
    }
  }

  /** `hasAdjacentTile`: some in-bounds orthogonal neighbour holds a tile. */
  predicate HasAdjacentTile(b: Board, p: Pos) {
    Occupied(b, Neighbor(p, 0)) || Occupied(b, Neighbor(p, 1)) ||
    Occupied(b, Neighbor(p, 2)) || Occupied(b, Neighbor(p, 3))
  }

  /**
   * The check of one edge in `checkEdgeMatches`: no tile there, a Blank on either
   * unrotated side when blank matches are allowed, or equal facing rotated sides.
   */
  predicate EdgeMatches(b: Board, p: Pos, t: Tile, o: RulesetOptions, d: nat)
    requires d < 4
  {
    var q := Neighbor(p, d);
    !Occupied(b, q) ||
    (o.allowBlankMatches && (t.sides[d] == BLANK || At(b, q).value.sides[Facing(d)] == BLANK)) ||
    RotatedSides(t)[d] == RotatedSides(At(b, q).value)[Facing(d)]
  }

  /** `checkEdgeMatches`: every edge matches. */
  predicate CheckEdgeMatches(b: Board, p: Pos, t: Tile, o: RulesetOptions) {
    EdgeMatches(b, p, t, o, 0) && EdgeMatches(b, p, t, o, 1) &&
    EdgeMatches(b, p, t, o, 2) && EdgeMatches(b, p, t, o, 3)
  }

  /**
   * The border rule on a board of size `n`: on a Streets board no street may face
   * off the board; on a Shapes board every side facing off the board is Blank;
   * other tile sets are not restricted.
   */
  predicate BorderAllows(n: int, p: Pos, sides: Sides, tileSetName: string) {
    var onBorder := p.x == 0 || p.x == n - 1 || p.y == 0 || p.y == n - 1;
    !onBorder ||
    (if tileSetName == "Streets" then
       !(p.x == 0 && sides[3] == STREET) && !(p.x == n - 1 && sides[1] == STREET) &&
       !(p.y == 0 && sides[0] == STREET) && !(p.y == n - 1 && sides[2] == STREET)
     else if tileSetName == "Shapes" then
       !(p.x == 0 && sides[3] != BLANK) && !(p.x == n - 1 && sides[1] != BLANK) &&
       !(p.y == 0 && sides[0] != BLANK) && !(p.y == n - 1 && sides[2] != BLANK)
     else true)
  }

  /** `isValidPlacement(gameState, position, tile)`, the checks in the source's order. */
  predicate IsValidPlacement(b: Board, p: Pos, t: Tile, o: RulesetOptions, tileSetName: string) {
    InBounds(|b|, p) && At(b, p).None? &&
    (!o.enableBorderRule || BorderAllows(|b|, p, RotatedSides(t), tileSetName)) &&
    (if o.enableFreePlay then CheckEdgeMatches(b, p, t, o)
     else if OpenBoard(b) then true
     else HasAdjacentTile(b, p) && CheckEdgeMatches(b, p, t, o))
  }

  /** A placement never goes off the board or onto a tile. */
  lemma PlacementNeedsEmptyCell(b: Board, p: Pos, t: Tile, o: RulesetOptions, name: string)
    requires !InBounds(|b|, p) || At(b, p).Some?
    ensures !IsValidPlacement(b, p, t, o, name)
  {
  }

  /**
   * Outside free play, once the board holds any tile, a placement must touch a tile
   * and match every occupied neighbour.
   */
  lemma PlacementNeedsNeighbour(b: Board, p: Pos, t: Tile, o: RulesetOptions, name: string)
    requires !o.enableFreePlay && !IsEmpty(b)
    requires IsValidPlacement(b, p, t, o, name)
    ensures HasAdjacentTile(b, p) && CheckEdgeMatches(b, p, t, o)
  {
    OpenBoardIffEmpty(b);
  }

  /** On an empty board without free play every empty cell that passes the border rule is valid. */
  lemma EmptyBoardAcceptsAnyCell(b: Board, p: Pos, t: Tile, o: RulesetOptions, name: string)
    requires IsEmpty(b) && !o.enableFreePlay && InBounds(|b|, p)
    requires !o.enableBorderRule || BorderAllows(|b|, p, RotatedSides(t), name)
    ensures IsValidPlacement(b, p, t, o, name)
  {
    OpenBoardIffEmpty(b);
  }

  /**
   * Without blank matches, every occupied neighbour of a valid placement (other than
   * on an open board) shows on its facing side exactly what the tile shows.
   */
  lemma PlacementMatchesEdges(b: Board, p: Pos, t: Tile, o: RulesetOptions, name: string, d: nat)
    requires d < 4 && !o.allowBlankMatches && !OpenBoard(b)
    requires IsValidPlacement(b, p, t, o, name) && Occupied(b, Neighbor(p, d))
    ensures RotatedSides(t)[d] == RotatedSides(At(b, Neighbor(p, d)).value)[Facing(d)]
  {
    assert !o.enableFreePlay ==> HasAdjacentTile(b, p) && CheckEdgeMatches(b, p, t, o);
    assert CheckEdgeMatches(b, p, t, o);
    if d == 0 {
      assert EdgeMatches(b, p, t, o, 0);
    } else if d == 1 {
      assert EdgeMatches(b, p, t, o, 1);
    } else if d == 2 {
      assert EdgeMatches(b, p, t, o, 2);
    } else {
      assert EdgeMatches(b, p, t, o, 3);
    }
  }

  /** With the border rule on a Streets board, no street of a placed tile faces off the board. */
  lemma StreetsBorderRule(b: Board, p: Pos, t: Tile, o: RulesetOptions, d: nat)
    requires o.enableBorderRule && IsValidPlacement(b, p, t, o, "Streets")
    requires d < 4 && !InBounds(|b|, Neighbor(p, d))
    ensures RotatedSides(t)[d] != STREET
  {
  }

  /** With the border rule on a Shapes board, every side of a placed tile facing off the board is Blank. */
  lemma ShapesBorderRule(b: Board, p: Pos, t: Tile, o: RulesetOptions, d: nat)
    requires o.enableBorderRule && IsValidPlacement(b, p, t, o, "Shapes")
    requires d < 4 && !InBounds(|b|, Neighbor(p, d))
    ensures RotatedSides(t)[d] == BLANK
  {
  }

  /**
   * The test `getValidMoves` applies to one cell: on an open board any empty cell,
   * otherwise `isValidPlacement`.
   */
  predicate CanPlaceAt(b: Board, t: Tile, o: RulesetOptions, name: string, p: Pos) {
    (OpenBoard(b) && InBounds(|b|, p) && At(b, p).None?) || IsValidPlacement(b, p, t, o, name)
  }

  function MovePred(b: Board, t: Tile, o: RulesetOptions, name: string): Pos -> bool {
    p => CanPlaceAt(b, t, o, name, p)
  }

  /** The body of the scan for one cell, with its three branches. */
  method ListCell(b: Board, t: Tile, o: RulesetOptions, name: string, p: Pos, opening: bool)
    returns (listed: bool)
    requires IsSquare(b) && InBounds(|b|, p)
    requires opening == OpenBoard(b)
    ensures listed == MovePred(b, t, o, name)(p)
  {
    assert b[p.y][p.x] == At(b, p);
    if opening && b[p.y][p.x].None? {
      listed := true;
    } else if o.enableFreePlay && b[p.y][p.x].None? {
      listed := IsValidPlacement(b, p, t, o, name);
    } else {
      listed := IsValidPlacement(b, p, t, o, name);
    }
  }

  /** The inner loop of `getValidMoves`: the cells of row `y` a tile can go to, left to right. */
  method ScanRowMoves(b: Board, t: Tile, o: RulesetOptions, name: string, y: nat, opening: bool)
    returns (row: seq<Pos>)
    requires IsSquare(b) && y < |b|
    requires opening == OpenBoard(b)
    ensures row == ScanRow(MovePred(b, t, o, name), y, |b|)
  {
    var n := |b|;
    var keep := MovePred(b, t, o, name);
    row := [];
    var x := 0;
    while x < n
      invariant 0 <= x <= n
      invariant row == ScanRow(keep, y, x)
    {
      var listed := ListCell(b, t, o, name, Pos(x, y), opening);
      row := ExtendRow(keep, y, x, row, listed);
      x := x + 1;
    }
  }

  /** `isFirstMove && !hasStarterTiles`, computed once before the scan. */
  method IsOpenBoard(b: Board) returns (opening: bool)
    ensures opening == OpenBoard(b)
  {
    var first := IsFirstMove(b);
    var starters := HasAnyStarterTiles(b);
    opening := first && !starters;
  }

  /** `getValidMoves(gameState, tile)`: the cells a tile can go to, in row-major order. */
  method GetValidMoves(b: Board, t: Tile, o: RulesetOptions, name: string) returns (moves: seq<Pos>)
    requires IsSquare(b)
    ensures moves == Scan(|b|, MovePred(b, t, o, name))
    ensures forall p :: p in moves <==> InBounds(|b|, p) && CanPlaceAt(b, t, o, name, p)
    ensures RowMajorSorted(moves) && Distinct(moves)
  {
    var n := |b|;
    var keep := MovePred(b, t, o, name);
    var opening := IsOpenBoard(b);
    moves := [];
    var y := 0;
    while y < n
      invariant 0 <= y <= n
      invariant moves == ScanRows(n, keep, y)
    {
      var row := ScanRowMoves(b, t, o, name, y, opening);
      ScanRowsStep(n, keep, y);
      moves := moves + row;
      y := y + 1;
    }
    MovesSpec(b, t, o, name);
  }

  lemma MovesSpec(b: Board, t: Tile, o: RulesetOptions, name: string)
    ensures forall p :: p in Scan(|b|, MovePred(b, t, o, name)) <==> InBounds(|b|, p) && CanPlaceAt(b, t, o, name, p)
    ensures RowMajorSorted(Scan(|b|, MovePred(b, t, o, name))) && Distinct(Scan(|b|, MovePred(b, t, o, name)))
  {
    ScanSpec(|b|, MovePred(b, t, o, name));
  }

  /**
   * Away from the open board, or with the border rule off, the listed moves are
   * exactly the valid placements.
   */
  lemma ValidMovesArePlacements(b: Board, t: Tile, o: RulesetOptions, name: string, p: Pos)
    requires !OpenBoard(b) || !o.enableBorderRule
    ensures InBounds(|b|, p) && CanPlaceAt(b, t, o, name, p) <==> IsValidPlacement(b, p, t, o, name)
  {
    if OpenBoard(b) && InBounds(|b|, p) && At(b, p).None? && !o.enableFreePlay {
      assert IsValidPlacement(b, p, t, o, name);
    }
  }

  /** On an open board every empty cell is listed, even one the border rule refuses. */
  lemma OpenBoardListsEmptyCells(b: Board, t: Tile, o: RulesetOptions, name: string, p: Pos)
    requires IsEmpty(b) && InBounds(|b|, p)
    ensures CanPlaceAt(b, t, o, name, p)
  {
    OpenBoardIffEmpty(b);
  }

  /**
   * An instance of the gap between the two: with the border rule on, an empty
   * Streets board lists the top-left corner for a tile whose top is a street,
   * yet `isValidPlacement` refuses it there.
   */
  lemma BorderRuleGapOnOpenBoard()
    ensures var b := EmptyBoard(3);
            var t := Tile("t", [STREET, STREET, STREET, STREET], 0, None, None, false);
            var o := RulesetOptions(true, false, false, true);
            CanPlaceAt(b, t, o, "Streets", Pos(0, 0)) && !IsValidPlacement(b, Pos(0, 0), t, o, "Streets")
  {
    var b := EmptyBoard(3);
    var t := Tile("t", [STREET, STREET, STREET, STREET], 0, None, None, false);
    OpenBoardIffEmpty(b);
    assert RotatedSides(t)[0] == STREET;
  }
}
