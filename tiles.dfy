/** Tiles: four sides, a rotation and optional decorations. */
module Tiles {
  import opened Common
  import GameUtils

  type Side = string

  const STREET: Side := "street"
  const NON_STREET: Side := "non-street"
  const BLANK: Side := "Blank"

  /** The sides of a tile, indexed 0 = top, 1 = right, 2 = bottom, 3 = left. */
  type Sides = s: seq<Side> | |s| == 4 witness ["", "", "", ""]

  /**
   * A tile object. A missing `rotation` is 0, a missing `centerPattern` or
   * `backgroundColor` is `None`, and a missing `isStarterTile` is `false`.
   */
  datatype Tile = Tile(
    id: string,
    sides: Sides,
    rotation: nat,
    centerPattern: Option<string>,
    backgroundColor: Option<string>,
    isStarterTile: bool)

  /** `getRotatedSides`: the sides as they face after `rotation` right shifts. */
  function RotatedSides(t: Tile): Sides {
    GameUtils.RotateRight(t.sides, t.rotation)
  }

  /** Side `i` of a tile faces direction `(i + rotation) % 4`, and turning loses or adds no side. */
  lemma RotatedSidesMoveBy(t: Tile)
    ensures var r := RotatedSides(t);
      (forall i :: 0 <= i < 4 ==> r[(i + t.rotation) % 4] == t.sides[i]) &&
      multiset(r) == multiset(t.sides)
  {
    var r := RotatedSides(t);
    GameUtils.RotateRightMultiset(t.sides, t.rotation);
    forall i | 0 <= i < 4 ensures r[(i + t.rotation) % 4] == t.sides[i] {
      GameUtils.RotateRightAt(t.sides, t.rotation, i);
    }
  }

  /** Rotation acts modulo four: `rotation` and `rotation + 4` show the same sides. */
  lemma RotatedSidesPeriodic(t: Tile)
    ensures RotatedSides(t.(rotation := t.rotation + 4)) == RotatedSides(t)
  {
    GameUtils.RotateRightPeriod(t.sides, t.rotation);
  }

  /** The colours players and their tiles take, by seat (`DEFAULT_PLAYER_COLORS`). */
  const DEFAULT_PLAYER_COLORS: seq<string> := ["#FFFFFF", "#df0000", "#008bda", "#FFE600", "#1f9100"]

  /** `DEFAULT_PLAYER_COLORS[i]`, `undefined` past the end. */
  function PlayerColorAt(i: int): (c: Option<string>)
    ensures c.Some? <==> 0 <= i < 5
    ensures c.Some? ==> c.value in DEFAULT_PLAYER_COLORS
  {
    if 0 <= i < |DEFAULT_PLAYER_COLORS| then Some(DEFAULT_PLAYER_COLORS[i]) else None
  }

  /** The seat colour: the first entry for a lone player, otherwise the entry after the seat index. */
  function SeatColor(index: int, playerCount: int): (c: Option<string>)
    ensures playerCount == 1 ==> c == Some("#FFFFFF")
    ensures playerCount != 1 && 0 <= index < 4 ==> c == Some(DEFAULT_PLAYER_COLORS[index + 1])
    ensures playerCount != 1 && index >= 4 ==> c.None?
  {
    if playerCount == 1 then PlayerColorAt(0) else PlayerColorAt(index + 1)
  }

  /** The rolls `Math.random()` yields for one side of a freshly generated tile. */
  datatype SideDraw = SideDraw(blankRoll: GameUtils.Unit, pick: GameUtils.Unit)

  type SideDraws = s: seq<SideDraw> | |s| == 4
    witness [SideDraw(0.0, 0.0), SideDraw(0.0, 0.0), SideDraw(0.0, 0.0), SideDraw(0.0, 0.0)]

  /** Everything random that generating one tile consumes: its id and its rolls. */
  datatype TileDraw = TileDraw(id: string, sides: SideDraws, patternRoll: GameUtils.Unit, kindRoll: GameUtils.Unit)
}
