/**
 * Path scoring: street paths that join a player's centre-square tiles to their
 * circle tiles, found by depth-first search (`path-scoring.js`).
 */
module PathScoring {
  import opened Common
  import opened Tiles
  import opened Boards

  type Path = seq<Pos>

  /** Side `d` of `a` is a street and so is the side of `c` that faces it. */
  predicate StreetLink(a: Tile, c: Tile, d: nat)
    requires d < 4
  {
    RotatedSides(a)[d] == STREET && RotatedSides(c)[Facing(d)] == STREET
  }

  /** A tile at `p` whose street on side `d` runs on into the neighbour tile there. */
  predicate LinkedAt(b: Board, p: Pos, d: nat)
    requires d < 4
  {
    At(b, p).Some? && Occupied(b, Neighbor(p, d)) && StreetLink(At(b, p).value, At(b, Neighbor(p, d)).value, d)
  }

  /** `q` is a street neighbour of `p`. Tile colours play no part. */
  predicate Connected(b: Board, p: Pos, q: Pos) {
    (q == Neighbor(p, 0) && LinkedAt(b, p, 0)) || (q == Neighbor(p, 1) && LinkedAt(b, p, 1)) ||
    (q == Neighbor(p, 2) && LinkedAt(b, p, 2)) || (q == Neighbor(p, 3) && LinkedAt(b, p, 3))
  }

  /** Street connection runs both ways. */
  lemma ConnectedSymmetric(b: Board, p: Pos, q: Pos)
    requires IsSquare(b) && Connected(b, p, q)
    ensures Connected(b, q, p)
  {
    SomeIsInBounds(b, p);
  }

  /** The street neighbours among the first `k` directions, in direction order. */
  function LinkedUpTo(b: Board, p: Pos, k: nat): (r: seq<Pos>)
    requires k <= 4
  {
    if k == 0 then [] else LinkedUpTo(b, p, k - 1) + LinkIn(b, p, k - 1)
  }

  /** The street neighbours of `p`: top, right, bottom, left. */
  function ConnectedNeighbors(b: Board, p: Pos): (r: seq<Pos>)
    ensures forall q :: q in r ==> InBounds(|b|, q)
    ensures |r| <= 4
  {
    LinkIn(b, p, 0) + LinkIn(b, p, 1) + LinkIn(b, p, 2) + LinkIn(b, p, 3)
  }

  /** The neighbour in direction `d` when the street runs on into it, else nothing. */
  function LinkIn(b: Board, p: Pos, d: nat): (r: seq<Pos>)
    requires d < 4
    ensures |r| <= 1 && (r != [] <==> LinkedAt(b, p, d)) && (r != [] ==> r[0] == Neighbor(p, d))
    ensures forall q :: q in r ==> InBounds(|b|, q)
  {
    if LinkedAt(b, p, d) then [Neighbor(p, d)] else []
  }

  /** The street neighbours are exactly the connected cells, each listed once. */
  lemma ConnectedNeighborsSpec(b: Board, p: Pos)
    ensures forall q :: q in ConnectedNeighbors(b, p) <==> Connected(b, p, q)
    ensures Distinct(ConnectedNeighbors(b, p))
  {
    var l0, l1, l2, l3 := LinkIn(b, p, 0), LinkIn(b, p, 1), LinkIn(b, p, 2), LinkIn(b, p, 3);
    DistinctConcat(l0, l1);
    DistinctConcat(l0 + l1, l2);
    DistinctConcat(l0 + l1 + l2, l3);
  }

  lemma LinkedUpToAll(b: Board, p: Pos)
    ensures LinkedUpTo(b, p, 4) == ConnectedNeighbors(b, p)
  {
    assert LinkedUpTo(b, p, 1) == LinkIn(b, p, 0);
    assert LinkedUpTo(b, p, 2) == LinkIn(b, p, 0) + LinkIn(b, p, 1);
    assert LinkedUpTo(b, p, 3) == LinkIn(b, p, 0) + LinkIn(b, p, 1) + LinkIn(b, p, 2);
  }

  /** `getConnectedNeighbors(gameState, position)`. */
  method GetConnectedNeighbors(b: Board, p: Pos) returns (neighbors: seq<Pos>)
    requires IsSquare(b) && InBounds(|b|, p)
    ensures neighbors == ConnectedNeighbors(b, p)
  {
    neighbors := [];
    var d := 0;
    while d < 4
      invariant 0 <= d <= 4
      invariant neighbors == LinkedUpTo(b, p, d)
    {
      var link := LinkTest(b, p, d);
      neighbors := neighbors + link;
      d := d + 1;
    }
    LinkedUpToAll(b, p);
  }

  /**
   * The loop body of `getConnectedNeighbors` for direction `d`: the neighbour
   * when it is on the board, both cells hold tiles and both facing sides are streets.
   */
  method LinkTest(b: Board, p: Pos, d: nat) returns (link: seq<Pos>)
    requires IsSquare(b) && InBounds(|b|, p) && d < 4
    ensures link == LinkIn(b, p, d)
  {
    var n := |b|;
    var current := b[p.y][p.x];
    var q := Neighbor(p, d);
    link := [];
    if 0 <= q.x < n && 0 <= q.y < n && b[q.y][q.x].Some? && current.Some? {
      assert At(b, q) == b[q.y][q.x] && At(b, p) == current;
      if RotatedSides(current.value)[d] == STREET && RotatedSides(b[q.y][q.x].value)[Facing(d)] == STREET {
        link := [q];
      }
    }
  }

  /** Each step of the path goes to a street neighbour. */
  predicate Chained(b: Board, path: Path) {
    forall i :: 0 <= i < |path| - 1 ==> Connected(b, path[i], path[i + 1])
  }

  /** A simple street path from `start` to `end`. */
  predicate IsStreetPath(b: Board, start: Pos, end: Pos, path: Path) {
    |path| > 0 && path[0] == start && path[|path| - 1] == end && Distinct(path) && Chained(b, path)
  }

  ghost function AllCells(n: nat): set<Pos> {
    set x, y | 0 <= x < n && 0 <= y < n :: Pos(x, y)
  }

  lemma InAllCells(n: nat, p: Pos)
    requires InBounds(n, p)
    ensures p in AllCells(n)
  {
    assert p == Pos(p.x, p.y);
  }

  /**
   * The paths `dfsSearch(current, end, currentPath, visited)` records, in order:
   * the current path if `current` is the end, otherwise those found through each
   * unvisited street neighbour in turn.
   */
  ghost function SearchFrom(b: Board, cur: Pos, end: Pos, path: Path, visited: set<Pos>): seq<Path>
    requires InBounds(|b|, cur) && cur !in visited
    decreases AllCells(|b|) - visited, 0
  {
    InAllCells(|b|, cur);
    if cur == end then [path]
    else SearchNbrs(b, ConnectedNeighbors(b, cur), end, path, visited + {cur})
  }

  /** The paths the neighbour loop of `dfsSearch` records for the neighbours `nbrs`. */
  ghost function SearchNbrs(b: Board, nbrs: seq<Pos>, end: Pos, path: Path, visited: set<Pos>): seq<Path>
    requires forall q :: q in nbrs ==> InBounds(|b|, q)
    decreases AllCells(|b|) - visited, 1, |nbrs|
  {
    if nbrs == [] then []
    else
      var rest := SearchNbrs(b, nbrs[..|nbrs| - 1], end, path, visited);
      var q := nbrs[|nbrs| - 1];
      if q in visited then rest else rest + SearchFrom(b, q, end, path + [q], visited)
  }

  /** `findAllPathsForPlayer(gameState, start, end)`'s result. */
  ghost function AllPaths(b: Board, start: Pos, end: Pos): seq<Path>
    requires InBounds(|b|, start)
  {
    SearchFrom(b, start, end, [start], {})
  }

  /** The search state `dfsSearch` threads through its calls. */
  class PathSearch {
    var visited: set<Pos>
    var currentPath: Path
    var paths: seq<Path>

    constructor (start: Pos)
      ensures visited == {} && currentPath == [start] && paths == []
    {
      visited := {};
      currentPath := [start];
      paths := [];
    }
  }

  /**
   * `dfsSearch`: appends the paths of `SearchFrom` and leaves the visited set
   * and the current path as it found them.
   */
  method DfsSearch(b: Board, current: Pos, end: Pos, s: PathSearch)
    requires IsSquare(b) && InBounds(|b|, current) && current !in s.visited
    modifies s
    ensures s.visited == old(s.visited) && s.currentPath == old(s.currentPath)
    ensures s.paths == old(s.paths) + SearchFrom(b, current, end, old(s.currentPath), old(s.visited))
    decreases AllCells(|b|) - s.visited, 2
  {
    ghost var outer := s.visited;
    InAllCells(|b|, current);
    s.visited := s.visited + {current};
    if current == end {
      s.paths := s.paths + [s.currentPath];
    } else {
      var neighbors := GetConnectedNeighbors(b, current);
      SearchNeighbors(b, neighbors, end, s, outer, current);
    }
    s.visited := s.visited - {current};
    assert s.visited == outer;
  }

  /** The neighbour loop of `dfsSearch` over the street neighbours `neighbors` of `current`. */
  method SearchNeighbors(b: Board, neighbors: seq<Pos>, end: Pos, s: PathSearch, ghost outer: set<Pos>, ghost current: Pos)
    requires IsSquare(b) && forall q :: q in neighbors ==> InBounds(|b|, q)
    requires current in AllCells(|b|) && current !in outer && s.visited == outer + {current}
    modifies s
    ensures s.visited == old(s.visited) && s.currentPath == old(s.currentPath)
    ensures s.paths == old(s.paths) + SearchNbrs(b, neighbors, end, old(s.currentPath), old(s.visited))
    decreases AllCells(|b|) - outer, 1
  {
    ghost var inner, path0, found0 := s.visited, s.currentPath, s.paths;
    VisitShrinks(AllCells(|b|), outer, current);
    var i := 0;
    while i < |neighbors|
      invariant 0 <= i <= |neighbors|
      invariant s.visited == inner && s.currentPath == path0
      invariant s.paths == found0 + SearchNbrs(b, neighbors[..i], end, path0, inner)
    {
      var neighbor := neighbors[i];
      SearchNbrsStep(b, neighbors, i, end, path0, inner);
      if neighbor !in s.visited {
        Descend(b, neighbor, end, s, outer, current);
      }
      i := i + 1;
    }
    assert neighbors[..|neighbors|] == neighbors;
  }

  /** One unvisited neighbour: push it, search from it, pop it. */
  method Descend(b: Board, neighbor: Pos, end: Pos, s: PathSearch, ghost outer: set<Pos>, ghost current: Pos)
    requires IsSquare(b) && InBounds(|b|, neighbor) && neighbor !in s.visited
    requires current in AllCells(|b|) && current !in outer && s.visited == outer + {current}
    modifies s
    ensures s.visited == old(s.visited) && s.currentPath == old(s.currentPath)
    ensures s.paths == old(s.paths) + SearchFrom(b, neighbor, end, old(s.currentPath) + [neighbor], old(s.visited))
    decreases AllCells(|b|) - outer, 0
  {
    ghost var path0 := s.currentPath;
    VisitShrinks(AllCells(|b|), outer, current);
    s.currentPath := s.currentPath + [neighbor];
    DfsSearch(b, neighbor, end, s);
    assert (path0 + [neighbor])[..|path0|] == path0;
    s.currentPath := s.currentPath[..|s.currentPath| - 1];
  }

  lemma VisitShrinks(all: set<Pos>, outer: set<Pos>, c: Pos)
    requires c in all && c !in outer
    ensures all - (outer + {c}) < all - outer
  {
    assert c in all - outer;
  }

  lemma SearchNbrsStep(b: Board, nbrs: seq<Pos>, i: nat, end: Pos, path: Path, visited: set<Pos>)
    requires i < |nbrs| && forall q :: q in nbrs ==> InBounds(|b|, q)
    ensures SearchNbrs(b, nbrs[..i + 1], end, path, visited) ==
      SearchNbrs(b, nbrs[..i], end, path, visited) +
      (if nbrs[i] in visited then [] else SearchFrom(b, nbrs[i], end, path + [nbrs[i]], visited))
  {
    assert nbrs[..i + 1][..i] == nbrs[..i];
  }

  // Properties of the search

  lemma {:induction false} SearchFromPrefix(b: Board, cur: Pos, end: Pos, path: Path, visited: set<Pos>, p: Path)
    requires InBounds(|b|, cur) && cur !in visited
    requires p in SearchFrom(b, cur, end, path, visited)
    ensures |p| >= |path| && p[..|path|] == path
    decreases AllCells(|b|) - visited, 0
  {
    InAllCells(|b|, cur);
    if cur != end {
      SearchNbrsPrefix(b, ConnectedNeighbors(b, cur), end, path, visited + {cur}, p);
    }
  }

  lemma {:induction false} SearchNbrsPrefix(b: Board, nbrs: seq<Pos>, end: Pos, path: Path, visited: set<Pos>, p: Path)
    requires forall q :: q in nbrs ==> InBounds(|b|, q)
    requires p in SearchNbrs(b, nbrs, end, path, visited)
    ensures |p| > |path| && p[..|path|] == path && p[|path|] in nbrs
    decreases AllCells(|b|) - visited, 1, |nbrs|
  {
    assert nbrs != [];
    var init, q := nbrs[..|nbrs| - 1], nbrs[|nbrs| - 1];
    if p in SearchNbrs(b, init, end, path, visited) {
      SearchNbrsPrefix(b, init, end, path, visited, p);
      assert p[|path|] in init;
    } else {
      assert q !in visited && p in SearchFrom(b, q, end, path + [q], visited);
      SearchFromPrefix(b, q, end, path + [q], visited, p);
      assert p[..|path| + 1][..|path|] == p[..|path|];
      assert p[|path|] == (path + [q])[|path|];
    }
  }

  /** Every recorded path extends the current path to a simple street path ending at `end`. */
  lemma {:induction false} SearchFromSound(b: Board, cur: Pos, end: Pos, path: Path, visited: set<Pos>, p: Path)
    requires InBounds(|b|, cur) && cur !in visited
    requires |path| > 0 && path[|path| - 1] == cur && Distinct(path) && Chained(b, path)
    requires forall i :: 0 <= i < |path| - 1 ==> path[i] in visited
    requires p in SearchFrom(b, cur, end, path, visited)
    ensures |p| >= |path| && p[..|path|] == path && p[|p| - 1] == end && Distinct(p) && Chained(b, p)
    decreases AllCells(|b|) - visited, 0
  {
    InAllCells(|b|, cur);
    if cur == end {
      assert p == path;
      assert p[..|path|] == path;
    } else {
      var visited' := visited + {cur};
      ConnectedNeighborsSpec(b, cur);
      forall i | 0 <= i < |path| ensures path[i] in visited' {
        if i < |path| - 1 {
          assert path[i] in visited;
        }
      }
      SearchNbrsSound(b, cur, ConnectedNeighbors(b, cur), end, path, visited', p);
    }
  }

  lemma {:induction false} SearchNbrsSound(b: Board, cur: Pos, nbrs: seq<Pos>, end: Pos, path: Path, visited: set<Pos>, p: Path)
    requires forall q :: q in nbrs ==> InBounds(|b|, q) && Connected(b, cur, q)
    requires |path| > 0 && path[|path| - 1] == cur && Distinct(path) && Chained(b, path)
    requires forall i :: 0 <= i < |path| ==> path[i] in visited
    requires p in SearchNbrs(b, nbrs, end, path, visited)
    ensures |p| >= |path| && p[..|path|] == path && p[|p| - 1] == end && Distinct(p) && Chained(b, p)
    decreases AllCells(|b|) - visited, 1, |nbrs|
  {
    var init, q := nbrs[..|nbrs| - 1], nbrs[|nbrs| - 1];
    if p in SearchNbrs(b, init, end, path, visited) {
      SearchNbrsSound(b, cur, init, end, path, visited, p);
    } else {
      StepToNeighbor(b, cur, q, path, visited);
      SearchFromSound(b, q, end, path + [q], visited, p);
      assert p[..|path| + 1][..|path|] == p[..|path|];
    }
  }

  /** Stepping from the end of a simple street path to an unvisited street neighbour keeps it simple. */
  lemma StepToNeighbor(b: Board, cur: Pos, q: Pos, path: Path, visited: set<Pos>)
    requires Connected(b, cur, q) && q !in visited
    requires |path| > 0 && path[|path| - 1] == cur && Distinct(path) && Chained(b, path)
    requires forall i :: 0 <= i < |path| ==> path[i] in visited
    ensures Distinct(path + [q]) && Chained(b, path + [q])
    ensures forall i :: 0 <= i < |path + [q]| - 1 ==> (path + [q])[i] in visited
  {
    var ext := path + [q];
    forall i | 0 <= i < |path| ensures path[i] != q {
      assert path[i] in visited;
    }
    forall i | 0 <= i < |ext| - 1 ensures Connected(b, ext[i], ext[i + 1]) {
      if i < |path| - 1 {
        assert ext[i] == path[i] && ext[i + 1] == path[i + 1];
      }
    }
  }

  /** A recorded path for `q` in the neighbour list is recorded by the neighbour loop. */
  lemma {:induction false} SearchNbrsIncludes(b: Board, nbrs: seq<Pos>, end: Pos, path: Path, visited: set<Pos>, q: Pos, p: Path)
    requires forall r :: r in nbrs ==> InBounds(|b|, r)
    requires q in nbrs && q !in visited
    requires p in SearchFrom(b, q, end, path + [q], visited)
    ensures p in SearchNbrs(b, nbrs, end, path, visited)
    decreases |nbrs|
  {
    var init := nbrs[..|nbrs| - 1];
    if nbrs[|nbrs| - 1] != q {
      assert q in init;
      SearchNbrsIncludes(b, init, end, path, visited, q, p);
    }
  }

  /** The first step of `rest` is a connected neighbour the search may still enter. */
  lemma {:induction false} CompleteStep(b: Board, cur: Pos, end: Pos, path: Path, visited: set<Pos>, rest: Path)
    requires InBounds(|b|, cur) && cur !in visited && cur != end
    requires |path| > 0 && path[|path| - 1] == cur
    requires Distinct(path + rest) && Chained(b, path + rest) && (path + rest)[|path + rest| - 1] == end
    requires forall j :: 0 <= j < |rest| ==> rest[j] !in visited
    ensures rest != [] && rest[0] in ConnectedNeighbors(b, cur) && rest[0] !in visited + {cur}
    ensures forall j :: 0 <= j < |rest[1..]| ==> rest[1..][j] !in visited + {cur}
    ensures path + [rest[0]] + rest[1..] == path + rest
  {
    var full := path + rest;
    assert full[|path| - 1] == cur;
    assert rest != [];
    var q := rest[0];
    assert full[|path|] == q;
    assert Connected(b, full[|path| - 1], full[|path|]);
    ConnectedNeighborsSpec(b, cur);
    assert full[|path| - 1] != full[|path|];
    forall j | 0 <= j < |rest[1..]| ensures rest[1..][j] !in visited + {cur} {
      assert rest[1..][j] == rest[j + 1] == full[|path| + 1 + j];
    }
    assert path + [q] + rest[1..] == full;
  }

  /**
   * Every simple street path that extends the current path through unvisited
   * cells to `end` is recorded.
   */
  lemma {:induction false} SearchFromComplete(b: Board, cur: Pos, end: Pos, path: Path, visited: set<Pos>, rest: Path)
    requires InBounds(|b|, cur) && cur !in visited
    requires |path| > 0 && path[|path| - 1] == cur
    requires Distinct(path + rest) && Chained(b, path + rest) && (path + rest)[|path + rest| - 1] == end
    requires forall j :: 0 <= j < |rest| ==> rest[j] !in visited
    ensures path + rest in SearchFrom(b, cur, end, path, visited)
    decreases AllCells(|b|) - visited
  {
    InAllCells(|b|, cur);
    if cur == end {
      var full := path + rest;
      assert full[|path| - 1] == cur;
      assert rest == [];
      assert full == path;
    } else {
      CompleteStep(b, cur, end, path, visited, rest);
      var q := rest[0];
      ConnectedNeighborsSpec(b, cur);
      SearchFromComplete(b, q, end, path + [q], visited + {cur}, rest[1..]);
      SearchNbrsIncludes(b, ConnectedNeighbors(b, cur), end, path, visited + {cur}, q, path + rest);
    }
  }

  /** No path is recorded twice. */
  lemma {:induction false} SearchFromDistinct(b: Board, cur: Pos, end: Pos, path: Path, visited: set<Pos>)
    requires InBounds(|b|, cur) && cur !in visited
    ensures Distinct(SearchFrom(b, cur, end, path, visited))
    decreases AllCells(|b|) - visited, 0
  {
    InAllCells(|b|, cur);
    if cur != end {
      ConnectedNeighborsSpec(b, cur);
      SearchNbrsDistinct(b, ConnectedNeighbors(b, cur), end, path, visited + {cur});
    }
  }

  lemma {:induction false} SearchNbrsDistinct(b: Board, nbrs: seq<Pos>, end: Pos, path: Path, visited: set<Pos>)
    requires forall q :: q in nbrs ==> InBounds(|b|, q)
    requires Distinct(nbrs)
    ensures Distinct(SearchNbrs(b, nbrs, end, path, visited))
    decreases AllCells(|b|) - visited, 1, |nbrs|
  {
    if nbrs != [] {
      var init, q := nbrs[..|nbrs| - 1], nbrs[|nbrs| - 1];
      SearchNbrsDistinct(b, init, end, path, visited);
      if q !in visited {
        var rest := SearchNbrs(b, init, end, path, visited);
        var child := SearchFrom(b, q, end, path + [q], visited);
        SearchFromDistinct(b, q, end, path + [q], visited);
        forall p | p in rest ensures |p| > |path| && p[|path|] in init {
          SearchNbrsPrefix(b, init, end, path, visited, p);
        }
        forall p | p in child ensures |p| > |path| && p[|path|] == q {
          SearchFromPrefix(b, q, end, path + [q], visited, p);
          assert p[|path|] == p[..|path| + 1][|path|];
        }
        assert q !in init by {
          forall i | 0 <= i < |init| ensures init[i] != q {
            assert init[i] == nbrs[i];
          }
        }
        DistinctConcat(rest, child);
      }
    }
  }

  /** `findAllPathsForPlayer(gameState, start, end)`: every simple street path from `start` to `end`, each once. */
  method FindAllPathsForPlayer(b: Board, start: Pos, end: Pos) returns (paths: seq<Path>)
    requires IsSquare(b) && InBounds(|b|, start)
    ensures paths == AllPaths(b, start, end)
    ensures forall p :: p in paths <==> IsStreetPath(b, start, end, p)
    ensures Distinct(paths)
  {
    var s := new PathSearch(start);
    DfsSearch(b, start, end, s);
    paths := s.paths;
    AllPathsSpec(b, start, end);
  }

  lemma AllPathsSpec(b: Board, start: Pos, end: Pos)
    requires InBounds(|b|, start)
    ensures forall p :: p in AllPaths(b, start, end) <==> IsStreetPath(b, start, end, p)
    ensures Distinct(AllPaths(b, start, end))
  {
    forall p | p in AllPaths(b, start, end) ensures IsStreetPath(b, start, end, p) {
      AllPathsSound(b, start, end, p);
    }
    forall p | IsStreetPath(b, start, end, p) ensures p in AllPaths(b, start, end) {
      AllPathsComplete(b, start, end, p);
    }
    SearchFromDistinct(b, start, end, [start], {});
  }

  lemma AllPathsSound(b: Board, start: Pos, end: Pos, p: Path)
    requires InBounds(|b|, start) && p in AllPaths(b, start, end)
    ensures IsStreetPath(b, start, end, p)
  {
    SearchFromSound(b, start, end, [start], {}, p);
    assert p[0] == p[..1][0];
  }

  lemma AllPathsComplete(b: Board, start: Pos, end: Pos, p: Path)
    requires InBounds(|b|, start) && IsStreetPath(b, start, end, p)
    ensures p in AllPaths(b, start, end)
  {
    assert [start] + p[1..] == p;
    SearchFromComplete(b, start, end, [start], {}, p[1..]);
  }

  // Special tiles: a player's centre squares and circles

  /** `toLowerCase` on the ASCII letters. */
  function LowerChar(c: char): (r: char)
    ensures 'A' <= c <= 'Z' ==> r as int == c as int + 32
    ensures !('A' <= c <= 'Z') ==> r == c
  {
    if 'A' <= c <= 'Z' then (c as int + 32) as char else c
  }

  function ToLower(s: string): (r: string)
    ensures |r| == |s| && forall i :: 0 <= i < |s| ==> r[i] == LowerChar(s[i])
  {
    seq(|s|, i requires 0 <= i < |s| => LowerChar(s[i]))
  }

  /**
   * A tile with centre pattern `patternType` (ignoring ASCII case) on the player's
   * background colour. A player without a colour owns no special tiles, since
   * a tile's missing colour is never equal to a missing player colour.
   */
  predicate IsSpecialTile(c: Cell, patternType: string, color: Option<string>) {
    c.Some? && c.value.centerPattern.Some? && ToLower(c.value.centerPattern.value) == ToLower(patternType) &&
    color.Some? && c.value.backgroundColor == color
  }

  function SpecialPred(b: Board, patternType: string, color: Option<string>): Pos -> bool {
    p => IsSpecialTile(At(b, p), patternType, color)
  }

  /** The positions the scan of `findSpecialTilesForPlayer` collects, in row-major order. */
  function SpecialTiles(b: Board, patternType: string, color: Option<string>): seq<Pos> {
    Scan(|b|, SpecialPred(b, patternType, color))
  }

  lemma SpecialTilesSpec(b: Board, patternType: string, color: Option<string>)
    ensures forall p :: p in SpecialTiles(b, patternType, color) <==> InBounds(|b|, p) && IsSpecialTile(At(b, p), patternType, color)
    ensures RowMajorSorted(SpecialTiles(b, patternType, color)) && Distinct(SpecialTiles(b, patternType, color))
  {
    ScanSpec(|b|, SpecialPred(b, patternType, color));
  }

  /** The inner loop of `findSpecialTilesForPlayer` over row `y`. */
  method SpecialTilesInRow(b: Board, patternType: string, color: Option<string>, y: nat) returns (row: seq<Pos>)
    requires IsSquare(b) && y < |b|
    ensures row == ScanRow(SpecialPred(b, patternType, color), y, |b|)
  {
    var n := |b|;
    var keep := SpecialPred(b, patternType, color);
    var wanted := ToLower(patternType);
    row := [];
    var x := 0;
    while x < n
      invariant 0 <= x <= n
      invariant row == ScanRow(keep, y, x)
    {
      var tile := b[y][x];
      assert tile == At(b, Pos(x, y));
      if tile.Some? && tile.value.centerPattern.Some? && ToLower(tile.value.centerPattern.value) == wanted &&
         color.Some? && tile.value.backgroundColor == color {
        row := row + [Pos(x, y)];
      }
      ScanRowStep(keep, y, x);
      x := x + 1;
    }
  }

  /**
   * `findSpecialTilesForPlayer(gameState, patternType, playerColor)`: every cell
   * holding such a special tile, each once, in row-major order.
   */
  method FindSpecialTilesForPlayer(b: Board, patternType: string, color: Option<string>) returns (tiles: seq<Pos>)
    requires IsSquare(b)
    ensures tiles == SpecialTiles(b, patternType, color)
    ensures forall p :: p in tiles <==> InBounds(|b|, p) && IsSpecialTile(At(b, p), patternType, color)
    ensures RowMajorSorted(tiles) && Distinct(tiles)
  {
    var n := |b|;
    var keep := SpecialPred(b, patternType, color);
    tiles := [];
    var y := 0;
    while y < n
      invariant 0 <= y <= n
      invariant tiles == ScanRows(n, keep, y)
    {
      var row := SpecialTilesInRow(b, patternType, color, y);
      ScanRowsStep(n, keep, y);
      tiles := tiles + row;
      y := y + 1;
    }
    SpecialTilesSpec(b, patternType, color);
  }

  // The longest path

  function LenOf(o: Option<Path>): nat {
    if o.Some? then |o.value| else 0
  }

  /** One step of the `path.length > longestLength` update. */
  function Better(acc: Option<Path>, p: Path): Option<Path> {
    if |p| > LenOf(acc) then Some(p) else acc
  }

  /** The running longest path after the update loop has seen `ps`, starting from `acc`. */
  function Extend(acc: Option<Path>, ps: seq<Path>): Option<Path> {
    if ps == [] then acc else Better(Extend(acc, ps[..|ps| - 1]), ps[|ps| - 1])
  }

  /** The longest of `ps`: the first one of greatest length, and none when every path is empty. */
  function Longest(ps: seq<Path>): Option<Path> {
    Extend(None, ps)
  }

  lemma {:induction false} ExtendConcat(acc: Option<Path>, a: seq<Path>, c: seq<Path>)
    ensures Extend(acc, a + c) == Extend(Extend(acc, a), c)
    decreases |c|
  {
    if c == [] {
      assert a + c == a;
    } else {
      assert (a + c)[..|a + c| - 1] == a + c[..|c| - 1];
      ExtendConcat(acc, a, c[..|c| - 1]);
    }
  }

  lemma ExtendStep(acc: Option<Path>, ps: seq<Path>, p: Path)
    ensures Extend(acc, ps + [p]) == Better(Extend(acc, ps), p)
  {
    assert (ps + [p])[..|ps|] == ps;
  }

  /**
   * The running maximum keeps a path at least as long as every path seen, is one
   * of them or the starting value, and changes only on a strictly longer path.
   */
  lemma {:induction false} ExtendSpec(acc: Option<Path>, ps: seq<Path>)
    ensures LenOf(Extend(acc, ps)) >= LenOf(acc)
    ensures forall p :: p in ps ==> |p| <= LenOf(Extend(acc, ps))
    ensures Extend(acc, ps) == acc || (Extend(acc, ps).Some? && Extend(acc, ps).value in ps)
    ensures Extend(acc, ps) != acc ==> LenOf(Extend(acc, ps)) > LenOf(acc)
    decreases |ps|
  {
    if ps != [] {
      var init := ps[..|ps| - 1];
      ExtendSpec(acc, init);
      assert ps == init + [ps[|ps| - 1]];
    }
  }

  /** The first path of the greatest length wins: every earlier path is strictly shorter. */
  lemma {:induction false} LongestIsFirst(ps: seq<Path>)
    ensures Longest(ps).Some? ==>
      exists i :: 0 <= i < |ps| && ps[i] == Longest(ps).value && forall j :: 0 <= j < i ==> |ps[j]| < |ps[i]|
    decreases |ps|
  {
    if ps != [] {
      var init, last := ps[..|ps| - 1], ps[|ps| - 1];
      LongestIsFirst(init);
      ExtendSpec(None, init);
      if |last| > LenOf(Longest(init)) {
        var i := |ps| - 1;
        forall j | 0 <= j < i ensures |ps[j]| < |ps[i]| {
          assert ps[j] in init;
        }
      } else if Longest(init).Some? {
        var i :| 0 <= i < |init| && init[i] == Longest(init).value && forall j :: 0 <= j < i ==> |init[j]| < |init[i]|;
        assert ps[i] == init[i];
        forall j | 0 <= j < i ensures |ps[j]| < |ps[i]| {
          assert ps[j] == init[j];
        }
      }
    }
  }

  /** The longest path is missing exactly when every path is empty, and is as long as any. */
  lemma LongestSpec(ps: seq<Path>)
    ensures Longest(ps).None? <==> forall p :: p in ps ==> p == []
    ensures Longest(ps).Some? ==> Longest(ps).value in ps && |Longest(ps).value| > 0
    ensures forall p :: p in ps ==> |p| <= LenOf(Longest(ps))
  {
    ExtendSpec(None, ps);
  }

  /** The paths of `findAllPathsForPlayer(start, end)` for `end` in `ends`, in that order. */
  ghost function PathsTo(b: Board, start: Pos, ends: seq<Pos>): seq<Path>
    requires InBounds(|b|, start)
  {
    if ends == [] then [] else PathsTo(b, start, ends[..|ends| - 1]) + AllPaths(b, start, ends[|ends| - 1])
  }

  /** The paths the nested `for start / for end` loops visit, in that order. */
  ghost function Candidates(b: Board, starts: seq<Pos>, ends: seq<Pos>): seq<Path>
    requires forall s :: s in starts ==> InBounds(|b|, s)
  {
    if starts == [] then []
    else Candidates(b, starts[..|starts| - 1], ends) + PathsTo(b, starts[|starts| - 1], ends)
  }

  lemma {:induction false} PathsToSpec(b: Board, start: Pos, ends: seq<Pos>)
    requires InBounds(|b|, start)
    ensures forall p :: p in PathsTo(b, start, ends) <==>
      |p| > 0 && p[0] == start && p[|p| - 1] in ends && IsStreetPath(b, start, p[|p| - 1], p)
    decreases |ends|
  {
    if ends != [] {
      var init, e := ends[..|ends| - 1], ends[|ends| - 1];
      PathsToSpec(b, start, init);
      AllPathsSpec(b, start, e);
      forall p: Path | |p| > 0 && p[|p| - 1] in ends ensures p[|p| - 1] in init || p[|p| - 1] == e {
      }
    }
  }

  lemma {:induction false} CandidatesSpec(b: Board, starts: seq<Pos>, ends: seq<Pos>)
    requires forall s :: s in starts ==> InBounds(|b|, s)
    ensures forall p :: p in Candidates(b, starts, ends) <==>
      |p| > 0 && p[0] in starts && p[|p| - 1] in ends && IsStreetPath(b, p[0], p[|p| - 1], p)
    decreases |starts|
  {
    if starts != [] {
      var init, s := starts[..|starts| - 1], starts[|starts| - 1];
      CandidatesSpec(b, init, ends);
      PathsToSpec(b, s, ends);
      forall p: Path | |p| > 0 && p[0] in starts ensures p[0] in init || p[0] == s {
      }
    }
  }

  /** A street path from one of the player's centre squares to one of their circles. */
  predicate PlayerPath(b: Board, color: Option<string>, p: Path) {
    |p| > 0 && IsSpecialTile(At(b, p[0]), "squares", color) && IsSpecialTile(At(b, p[|p| - 1]), "circles", color) &&
    IsStreetPath(b, p[0], p[|p| - 1], p)
  }

  /** The player has at least one centre square and at least one circle on the board. */
  predicate HasEndpoints(b: Board, color: Option<string>) {
    SpecialTiles(b, "squares", color) != [] && SpecialTiles(b, "circles", color) != []
  }

  /** What `findLongestPathForPlayer` returns for a player of colour `color`. */
  ghost function LongestPath(b: Board, color: Option<string>): Option<Path> {
    if !HasEndpoints(b, color) then None else Longest(PlayerCandidates(b, color))
  }

  /** The paths visited for the player: from each of their centre squares to each of their circles. */
  ghost function PlayerCandidates(b: Board, color: Option<string>): seq<Path> {
    SpecialTilesSpec(b, "squares", color);
    Candidates(b, SpecialTiles(b, "squares", color), SpecialTiles(b, "circles", color))
  }

  /** A player path is one of the candidates the nested loops visit. */
  lemma PlayerPathIsCandidate(b: Board, color: Option<string>, p: Path)
    requires IsSquare(b) && PlayerPath(b, color, p)
    ensures HasEndpoints(b, color)
    ensures p in PlayerCandidates(b, color)
  {
    var squares, circles := SpecialTiles(b, "squares", color), SpecialTiles(b, "circles", color);
    SpecialTilesSpec(b, "squares", color);
    SpecialTilesSpec(b, "circles", color);
    SomeIsInBounds(b, p[0]);
    SomeIsInBounds(b, p[|p| - 1]);
    assert p[0] in squares && p[|p| - 1] in circles;
    CandidatesSpec(b, squares, circles);
  }

  /** Every candidate is a player path. */
  lemma CandidateIsPlayerPath(b: Board, color: Option<string>, p: Path)
    requires p in PlayerCandidates(b, color)
    ensures PlayerPath(b, color, p)
  {
    var squares, circles := SpecialTiles(b, "squares", color), SpecialTiles(b, "circles", color);
    SpecialTilesSpec(b, "squares", color);
    SpecialTilesSpec(b, "circles", color);
    CandidatesSpec(b, squares, circles);
    assert p[0] in squares && p[|p| - 1] in circles;
  }

  /**
   * The longest path exists exactly when the player has a street path from a
   * centre square to a circle; it is such a path, and no such path is longer.
   */
  lemma LongestPathSpec(b: Board, color: Option<string>)
    requires IsSquare(b)
    ensures LongestPath(b, color).Some? <==> exists p :: PlayerPath(b, color, p)
    ensures LongestPath(b, color).Some? ==> PlayerPath(b, color, LongestPath(b, color).value)
    ensures forall p :: PlayerPath(b, color, p) ==> |p| <= LenOf(LongestPath(b, color))
  {
    var cands := PlayerCandidates(b, color);
    forall p | PlayerPath(b, color, p) ensures HasEndpoints(b, color) && p in cands {
      PlayerPathIsCandidate(b, color, p);
    }
    if HasEndpoints(b, color) {
      LongestSpec(cands);
      if LongestPath(b, color).Some? {
        CandidateIsPlayerPath(b, color, LongestPath(b, color).value);
      }
    }
  }

  /** The innermost loop: the running longest path over the paths of one start/end pair. */
  method KeepLongest(acc: Option<Path>, paths: seq<Path>) returns (longest: Option<Path>)
    ensures longest == Extend(acc, paths)
  {
    longest := acc;
    var longestLength := LenOf(acc);
    var k := 0;
    while k < |paths|
      invariant 0 <= k <= |paths|
      invariant longest == Extend(acc, paths[..k]) && longestLength == LenOf(longest)
    {
      var path := paths[k];
      ExtendStep(acc, paths[..k], path);
      assert paths[..k + 1] == paths[..k] + [path];
      if |path| > longestLength {
        longest := Some(path);
        longestLength := |path|;
      }
      k := k + 1;
    }
    assert paths[..k] == paths;
  }

  /** The middle loop: the running longest path over every end for one start. */
  method LongestFromStart(b: Board, start: Pos, ends: seq<Pos>, acc: Option<Path>) returns (longest: Option<Path>)
    requires IsSquare(b) && InBounds(|b|, start)
    ensures longest == Extend(acc, PathsTo(b, start, ends))
  {
    longest := acc;
    var j := 0;
    while j < |ends|
      invariant 0 <= j <= |ends|
      invariant longest == Extend(acc, PathsTo(b, start, ends[..j]))
    {
      assert ends[..j + 1][..j] == ends[..j];
      var paths := FindAllPathsForPlayer(b, start, ends[j]);
      ExtendConcat(acc, PathsTo(b, start, ends[..j]), paths);
      longest := KeepLongest(longest, paths);
      j := j + 1;
    }
    assert ends[..j] == ends;
  }

  /** The outer loop: the running longest path over every start/end pair. */
  method LongestAmong(b: Board, starts: seq<Pos>, ends: seq<Pos>) returns (longest: Option<Path>)
    requires IsSquare(b) && forall s :: s in starts ==> InBounds(|b|, s)
    ensures longest == Longest(Candidates(b, starts, ends))
  {
    longest := None;
    var i := 0;
    while i < |starts|
      invariant 0 <= i <= |starts|
      invariant longest == Longest(Candidates(b, starts[..i], ends))
    {
      assert starts[..i + 1][..i] == starts[..i];
      ExtendConcat(None, Candidates(b, starts[..i], ends), PathsTo(b, starts[i], ends));
      longest := LongestFromStart(b, starts[i], ends, longest);
      i := i + 1;
    }
    assert starts[..i] == starts;
  }

  /** `calculateEndGameBonus`: 0 without endpoints, else the longest path and its points. */
  datatype EndGameBonus = NoEndpoints | Bonus(score: int, path: Option<Path>)

  /** The points a path of `length` tiles is worth. */
  function PathPoints(length: int, pointsPerTile: int): int {
    length * pointsPerTile
  }

  /** The path scorer, with the last longest path found for each player. */
  class PathScoring {
    const pointsPerTile: int
    var playerPaths: map<string, Option<Path>>

    /** `new PathScoring(pointsPerTile)`; the default is 3. */
    constructor (pointsPerTile: int)
      ensures this.pointsPerTile == pointsPerTile && playerPaths == map[]
    {
      this.pointsPerTile := pointsPerTile;
      playerPaths := map[];
    }

    /**
     * `findLongestPathForPlayer(gameState, playerId)` for the player's colour
     * `color`: the longest street path from one of their centre squares to one
     * of their circles. It is recorded for the player unless they lack either.
     */
    method FindLongestPathForPlayer(b: Board, playerId: string, color: Option<string>) returns (longest: Option<Path>)
      requires IsSquare(b)
      modifies this
      ensures longest == LongestPath(b, color)
      ensures playerPaths == if HasEndpoints(b, color) then old(playerPaths)[playerId := longest] else old(playerPaths)
    {
      var squares := FindSpecialTilesForPlayer(b, "squares", color);
      var circles := FindSpecialTilesForPlayer(b, "circles", color);
      if |squares| == 0 || |circles| == 0 {
        return None;
      }
      longest := LongestAmong(b, squares, circles);
      playerPaths := playerPaths[playerId := longest];
    }

    /** `calculateEndGameBonus(gameState, playerId)`: the longest path's length in points. */
    method CalculateEndGameBonus(b: Board, color: Option<string>) returns (bonus: EndGameBonus)
      requires IsSquare(b)
      ensures !HasEndpoints(b, color) ==> bonus == NoEndpoints
      ensures HasEndpoints(b, color) ==>
        bonus == Bonus(PathPoints(LenOf(LongestPath(b, color)), pointsPerTile), LongestPath(b, color))
    {
      var squares := FindSpecialTilesForPlayer(b, "squares", color);
      var circles := FindSpecialTilesForPlayer(b, "circles", color);
      if |squares| == 0 || |circles| == 0 {
        return NoEndpoints;
      }
      var longest := LongestAmong(b, squares, circles);
      bonus := Bonus(PathPoints(LenOf(longest), pointsPerTile), longest);
    }

    /** `calculatePathScore(path)`: points per tile of the path, 0 without one. */
    function CalculatePathScore(path: Option<Path>): (r: int)
      ensures path.None? ==> r == 0
      ensures path.Some? ==> r == PathPoints(|path.value|, pointsPerTile)
    {
      if path.Some? then PathPoints(|path.value|, pointsPerTile) else 0
    }
  }
}
