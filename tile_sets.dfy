/** The Streets tile set: sides are streets or non-streets, some tiles carry a centre pattern. */
module StreetsTileSet {
  import opened Common
  import opened Tiles

  datatype StreetsOptions = StreetsOptions(
    enableCenterPatterns: bool,
    centerPatternFrequency: real,
    circlesWeight: real)

  const DefaultOptions := StreetsOptions(true, 0.2, 0.7)

  /** A side is a street with probability 0.75. */
  function StreetSide(d: SideDraw): (s: Side)
    ensures s == STREET || s == NON_STREET
  {
    if d.pick < 0.75 then STREET else NON_STREET
  }

  /** `generateTile(playerIndex, playerCount)` with its random rolls supplied by `draw`. */
  function GenerateTile(o: StreetsOptions, draw: TileDraw, playerIndex: Option<int>, playerCount: int): (t: Tile)
    ensures t.id == draw.id && t.rotation == 0 && !t.isStarterTile
    ensures forall i :: 0 <= i < 4 ==> (t.sides[i] == STREET <==> draw.sides[i].pick < 0.75)
    ensures t.centerPattern.Some? <==> o.enableCenterPatterns && draw.patternRoll < o.centerPatternFrequency
    ensures t.centerPattern.Some? ==>
      t.centerPattern.value == (if draw.kindRoll < o.circlesWeight then "circles" else "squares")
    ensures playerIndex.None? ==> t.backgroundColor.None?
    ensures playerIndex.Some? ==> t.backgroundColor == SeatColor(playerIndex.value, playerCount)
  {
    var sides := [StreetSide(draw.sides[0]), StreetSide(draw.sides[1]),
                  StreetSide(draw.sides[2]), StreetSide(draw.sides[3])];
    var pattern :=
      if o.enableCenterPatterns && draw.patternRoll < o.centerPatternFrequency
      then Some(if draw.kindRoll < o.circlesWeight then "circles" else "squares")
      else None;
    var color := if playerIndex.Some? then SeatColor(playerIndex.value, playerCount) else None;
    Tile(draw.id, sides, 0, pattern, color, false)
  }

  /** `validateTile`: four sides, each a street or a non-street. */
  predicate ValidateTile(t: Tile) {
    forall i :: 0 <= i < 4 ==> t.sides[i] == STREET || t.sides[i] == NON_STREET
  }

  /** Every generated tile passes validation. */
  lemma GeneratedTilesValidate(o: StreetsOptions, draw: TileDraw, playerIndex: Option<int>, playerCount: int)
    ensures ValidateTile(GenerateTile(o, draw, playerIndex, playerCount))
  {
  }
}

/** The Shapes tile set: each side is one of the first `shapeCount` colours, or Blank. */
module ShapesTileSet {
  import opened Common
  import opened Tiles
  import GameUtils

  datatype ShapesOptions = ShapesOptions(shapeCount: int, enableBlankSides: bool)

  const DefaultOptions := ShapesOptions(6, false)

  /** The colours sides are drawn from, with Blank appended when blank sides are on. */
  function AvailableColors(o: ShapesOptions): (r: seq<string>)
    ensures o.enableBlankSides ==> |r| > 0 && r[|r| - 1] == BLANK
    ensures forall c :: c in r[..|r| - (if o.enableBlankSides then 1 else 0)] ==>
      c in GameUtils.ColorNames && c != BLANK
  {
    var active := GameUtils.UpdateActiveShapes(o.shapeCount);
    if o.enableBlankSides then active + [BLANK] else active
  }

  /**
   * Some side can be drawn: there is an active colour, or blank sides are on.
   * Otherwise every side the source draws is `undefined`.
   */
  predicate Drawable(o: ShapesOptions) {
    GameUtils.UpdateActiveShapes(o.shapeCount) != [] || o.enableBlankSides
  }

  /**
   * One side: Blank with probability 0.2 when enabled, otherwise a uniformly
   * drawn active colour. With no active colour, the draw over zero colours picks
   * index 0 of `availableColors`, which is Blank.
   */
  function ShapeSide(o: ShapesOptions, d: SideDraw): (s: Side)
    requires Drawable(o)
    ensures s == BLANK <==> o.enableBlankSides && (d.blankRoll < 0.2 || GameUtils.UpdateActiveShapes(o.shapeCount) == [])
    ensures s != BLANK ==> s in GameUtils.UpdateActiveShapes(o.shapeCount)
  {
    var avail := AvailableColors(o);
    var k := |avail| - (if o.enableBlankSides then 1 else 0);
    if o.enableBlankSides && d.blankRoll < 0.2 then BLANK
    else if k == 0 then avail[0]
    else avail[GameUtils.RandomIndex(d.pick, k)]
  }

  /** `generateTile()`: an id and four drawn sides, nothing else. */
  function GenerateTile(o: ShapesOptions, draw: TileDraw): (t: Tile)
    requires Drawable(o)
    ensures t.id == draw.id && t.rotation == 0 && !t.isStarterTile
    ensures t.centerPattern.None? && t.backgroundColor.None?
    ensures forall i :: 0 <= i < 4 ==> t.sides[i] == ShapeSide(o, draw.sides[i])
  {
    var sides: Sides := seq(4, i requires 0 <= i < 4 => ShapeSide(o, draw.sides[i]));
    Tile(draw.id, sides, 0, None, None, false)
  }

  /**
   * Which counts leave something to draw: a positive count, a negative count
   * above -8 (`slice(0, -k)` drops the last k colours), or blank sides on.
   */
  lemma DrawableCounts(o: ShapesOptions)
    ensures Drawable(o) <==> o.enableBlankSides || o.shapeCount >= 1 || -8 < o.shapeCount < 0
  {
  }

  /** With no active colour and blank sides on, every side is Blank. */
  lemma NoColorsAllBlank(o: ShapesOptions, draw: TileDraw)
    requires o.enableBlankSides && GameUtils.UpdateActiveShapes(o.shapeCount) == []
    ensures GenerateTile(o, draw).sides == [BLANK, BLANK, BLANK, BLANK]
  {
  }

  /** `validateTile`: every side names a colour (Blank included). */
  predicate ValidateTile(t: Tile) {
    forall i :: 0 <= i < 4 ==> t.sides[i] in GameUtils.Colors
  }

  /** Every generated tile passes validation, and Blank appears only when enabled. */
  lemma GeneratedTilesValidate(o: ShapesOptions, draw: TileDraw)
    requires Drawable(o)
    ensures ValidateTile(GenerateTile(o, draw))
    ensures !o.enableBlankSides ==> BLANK !in GenerateTile(o, draw).sides
  {
    GameUtils.ColorNamesAreNonBlankKeys();
    GameUtils.ColorNamesHaveValues();
    var t := GenerateTile(o, draw);
    forall i | 0 <= i < 4 ensures t.sides[i] in GameUtils.Colors {
      var s := t.sides[i];
      if s != BLANK {
        assert s in GameUtils.ColorNames;
      }
    }
  }
}

/** The tile sets a game can be played with, and dispatch on them. */
module TileSets {
  import opened Common
  import opened Tiles
  import StreetsTileSet
  import ShapesTileSet

  datatype TileSet =
    | Streets(streets: StreetsTileSet.StreetsOptions)
    | Shapes(shapes: ShapesTileSet.ShapesOptions)

  predicate WellFormed(ts: TileSet) {
    ts.Shapes? ==> ShapesTileSet.Drawable(ts.shapes)
  }

  /** The tile set's `name`, which the border rule tests. */
  function Name(ts: TileSet): (name: string)
    ensures name == "Streets" <==> ts.Streets?
    ensures name == "Shapes" <==> ts.Shapes?
  {
    match ts
    case Streets(_) => "Streets"
    case Shapes(_) => "Shapes"
  }

  /** `tileSet.generateTile(playerIndex, playerCount)`; Shapes ignores both arguments. */
  function GenerateTile(ts: TileSet, draw: TileDraw, playerIndex: Option<int>, playerCount: int): (t: Tile)
    requires WellFormed(ts)
    ensures t.id == draw.id && t.rotation == 0 && !t.isStarterTile
    ensures ValidateTile(ts, t)
  {
    match ts
    case Streets(o) =>
      StreetsTileSet.GeneratedTilesValidate(o, draw, playerIndex, playerCount);
      StreetsTileSet.GenerateTile(o, draw, playerIndex, playerCount)
    case Shapes(o) =>
      ShapesTileSet.GeneratedTilesValidate(o, draw);
      ShapesTileSet.GenerateTile(o, draw)
  }

  predicate ValidateTile(ts: TileSet, t: Tile) {
    match ts
    case Streets(_) => StreetsTileSet.ValidateTile(t)
    case Shapes(_) => ShapesTileSet.ValidateTile(t)
  }

  /**
   * The game's supply of random draws for new tiles: every `generateTile` call
   * consumes the next draw.
   */
  class TileSource {
    const draws: nat -> TileDraw
    var used: nat

    constructor (draws: nat -> TileDraw)
      ensures this.draws == draws && used == 0
    {
      this.draws := draws;
      used := 0;
    }

    /** The `k`-th draw of the supply. */
    function Draw(k: nat): TileDraw {
      draws(k)
    }

    /** `tileSet.generateTile(playerIndex, playerCount)` on the next draw. */
    method Generate(ts: TileSet, playerIndex: Option<int>, playerCount: int) returns (t: Tile)
      requires WellFormed(ts)
      modifies this
      ensures used == old(used) + 1
      ensures t == GenerateTile(ts, Draw(old(used)), playerIndex, playerCount)
    {
      t := GenerateTile(ts, draws(used), playerIndex, playerCount);
      used := used + 1;
    }
  }
}
