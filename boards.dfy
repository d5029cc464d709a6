/** The board: an N x N grid of cells, read as `boardState[y][x]`. */
module Boards {
  import opened Common
  import opened Tiles

  type Cell = Option<Tile>
  type Board = seq<seq<Cell>>

  /** Every row is as long as there are rows. */
  predicate IsSquare(b: Board) {
    forall y :: 0 <= y < |b| ==> |b[y]| == |b|
  }

  predicate InBounds(n: int, p: Pos) {
    0 <= p.x < n && 0 <= p.y < n
  }

  /** The cell at `p`; `None` outside the grid. */
  function At(b: Board, p: Pos): Cell {
    if 0 <= p.y < |b| && 0 <= p.x < |b[p.y]| then b[p.y][p.x] else None
  }

  predicate Occupied(b: Board, p: Pos) {
    InBounds(|b|, p) && At(b, p).Some?
  }

  lemma SomeIsInBounds(b: Board, p: Pos)
    requires IsSquare(b) && At(b, p).Some?
    ensures InBounds(|b|, p)
  {
  }

  /** An N x N board of empty cells. */
  function EmptyBoard(n: nat): (b: Board)
    ensures |b| == n && IsSquare(b)
    ensures forall p {:trigger At(b, p)} :: At(b, p).None?
  {
    seq(n, _ => seq(n, _ => None))
  }

  /** `boardState[y][x] = c`. */
  function Put(b: Board, p: Pos, c: Cell): (r: Board)
    requires IsSquare(b) && InBounds(|b|, p)
    ensures IsSquare(r) && |r| == |b|
    ensures forall q {:trigger At(r, q)} :: At(r, q) == (if q == p then c else At(b, q))
  {
    b[p.y := b[p.y][p.x := c]]
  }

  /** Writing back the cell that was read leaves the board as it was. */
  lemma PutAtIdentity(b: Board, p: Pos)
    requires IsSquare(b) && InBounds(|b|, p)
    ensures Put(b, p, At(b, p)) == b
  {
    assert b[p.y][p.x := b[p.y][p.x]] == b[p.y];
  }

  /** A second write to the same cell overrides the first. */
  lemma PutPut(b: Board, p: Pos, c: Cell, d: Cell)
    requires IsSquare(b) && InBounds(|b|, p)
    ensures Put(Put(b, p, c), p, d) == Put(b, p, d)
  {
    assert Put(b, p, c)[p.y][p.x := d] == b[p.y][p.x := d];
  }

  /** The neighbour in direction `d`: 0 above, 1 right, 2 below, 3 left. */
  function Neighbor(p: Pos, d: nat): Pos
    requires d < 4
  {
    if d == 0 then Pos(p.x, p.y - 1)
    else if d == 1 then Pos(p.x + 1, p.y)
    else if d == 2 then Pos(p.x, p.y + 1)
    else Pos(p.x - 1, p.y)
  }

  /** The side of the neighbour in direction `d` that faces side `d`: `(d + 2) % 4`. */
  function Facing(d: nat): (e: nat)
    requires d < 4
    ensures e < 4 && e != d
  {
    (d + 2) % 4
  }

  lemma NeighborBack(p: Pos, d: nat)
    requires d < 4
    ensures Neighbor(Neighbor(p, d), Facing(d)) == p && Facing(Facing(d)) == d
  {
  }

  /** Every cell is empty. */
  predicate IsEmpty(b: Board) {
    forall y, x :: 0 <= y < |b| && 0 <= x < |b| ==> At(b, Pos(x, y)).None?
  }

  /** Every cell holds a tile (`boardState.every(row => row.every(cell => cell !== null))`). */
  predicate IsFull(b: Board) {
    forall y, x :: 0 <= y < |b| && 0 <= x < |b| ==> At(b, Pos(x, y)).Some?
  }

  /** The tile at `q` is a starter tile. */
  predicate StarterAt(b: Board, q: Pos) {
    Occupied(b, q) && At(b, q).value.isStarterTile
  }

  /** `isConnectedToStarterTile`: some in-bounds orthogonal neighbour is a starter tile. */
  predicate AdjacentToStarter(b: Board, p: Pos) {
    StarterAt(b, Neighbor(p, 0)) || StarterAt(b, Neighbor(p, 1)) ||
    StarterAt(b, Neighbor(p, 2)) || StarterAt(b, Neighbor(p, 3))
  }

  /** Row-major order: by row, then by column. */
  predicate RowMajorBefore(p: Pos, q: Pos) {
    p.y < q.y || (p.y == q.y && p.x < q.x)
  }

  predicate RowMajorSorted(s: seq<Pos>) {
    forall i, j :: 0 <= i < j < |s| ==> RowMajorBefore(s[i], s[j])
  }

  /** The first `k` cells of row `y` that satisfy `keep`, left to right. */
  function ScanRow(keep: Pos -> bool, y: int, k: nat): seq<Pos>
  {
    if k == 0 then []
    else ScanRow(keep, y, k - 1) + (if keep(Pos(k - 1, y)) then [Pos(k - 1, y)] else [])
  }

  lemma ScanRowStep(keep: Pos -> bool, y: int, x: nat)
    ensures ScanRow(keep, y, x + 1) == ScanRow(keep, y, x) + (if keep(Pos(x, y)) then [Pos(x, y)] else [])
  {
  }

  /** One step of a row scan: the cell at `x` is appended when it was kept. */
  method ExtendRow(keep: Pos -> bool, y: int, x: nat, row: seq<Pos>, listed: bool) returns (next: seq<Pos>)
    requires row == ScanRow(keep, y, x) && listed == keep(Pos(x, y))
    ensures next == ScanRow(keep, y, x + 1)
  {
    ScanRowStep(keep, y, x);
    next := if listed then row + [Pos(x, y)] else row;
  }

  /** The cells of the first `k` rows of an N-wide board that satisfy `keep`, in row-major order. */
  function ScanRows(n: nat, keep: Pos -> bool, k: nat): seq<Pos>
  {
    if k == 0 then [] else ScanRows(n, keep, k - 1) + ScanRow(keep, k - 1, n)
  }

  lemma ScanRowsStep(n: nat, keep: Pos -> bool, y: nat)
    ensures ScanRows(n, keep, y + 1) == ScanRows(n, keep, y) + ScanRow(keep, y, n)
  {
  }

  /** The nested `for (y) for (x)` scan of an N x N board. */
  function Scan(n: nat, keep: Pos -> bool): seq<Pos> {
    ScanRows(n, keep, n)
  }

  lemma {:induction false} ScanRowSpec(keep: Pos -> bool, y: int, k: nat)
    ensures forall p :: p in ScanRow(keep, y, k) <==> p.y == y && 0 <= p.x < k && keep(p)
    ensures forall p :: p in ScanRow(keep, y, k) ==> p.y == y
    ensures RowMajorSorted(ScanRow(keep, y, k))
  {
    if k > 0 {
      ScanRowSpec(keep, y, k - 1);
    }
  }

  lemma {:induction false} ScanRowsSpec(n: nat, keep: Pos -> bool, k: nat)
    ensures forall p :: p in ScanRows(n, keep, k) <==> 0 <= p.y < k && 0 <= p.x < n && keep(p)
    ensures RowMajorSorted(ScanRows(n, keep, k))
  {
    if k > 0 {
      ScanRowsSpec(n, keep, k - 1);
      ScanRowSpec(keep, k - 1, n);
      var a, r := ScanRows(n, keep, k - 1), ScanRow(keep, k - 1, n);
      forall i, j | 0 <= i < j < |a + r| ensures RowMajorBefore((a + r)[i], (a + r)[j]) {
        if j < |a| {
        } else if i >= |a| {
          assert (a + r)[i] == r[i - |a|] && (a + r)[j] == r[j - |a|];
        } else {
          assert (a + r)[i] in a && (a + r)[j] in r;
        }
      }
    }
  }

  /**
   * The scan lists exactly the in-bounds cells that satisfy `keep`, each once,
   * in row-major order.
   */
  lemma ScanSpec(n: nat, keep: Pos -> bool)
    ensures forall p :: p in Scan(n, keep) <==> InBounds(n, p) && keep(p)
    ensures RowMajorSorted(Scan(n, keep)) && Distinct(Scan(n, keep))
  {
    ScanRowsSpec(n, keep, n);
  }

  /** The mutable `boardState` grid that the game and the street scorer write into. */
  class BoardState {
    var cells: Board

    /** `Array(n).fill(null).map(() => Array(n).fill(null))`. */
    constructor (n: nat)
      ensures cells == EmptyBoard(n)
    {
      cells := EmptyBoard(n);
    }

    /** `boardState[p.y][p.x] = c`. */
    method Set(p: Pos, c: Cell)
      requires IsSquare(cells) && InBounds(|cells|, p)
      modifies this
      ensures cells == Put(old(cells), p, c)
    {
      cells := cells[p.y := cells[p.y][p.x := c]];
    }
  }
}
