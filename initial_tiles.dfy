/**
 * Seeding the board with starter tiles before play: at random positions, one
 * tile in the centre, or a full ring around the border (`initial-tiles-utils.js`).
 */
module InitialTiles {
  import opened Common
  import opened Tiles
  import opened Boards
  import opened TileSets
  import opened BasicRules
  import GameUtils

  /** One entry of a `placedTiles` map, keyed by the position's "x,y" string. */
  datatype Seed = Seed(position: Pos, tile: Tile)

  /** The map's keys, in insertion order. */
  function Keys(m: seq<Seed>): (ks: seq<Pos>)
    ensures |ks| == |m| && forall i :: 0 <= i < |m| ==> ks[i] == m[i].position
  {
    if m == [] then [] else [m[0].position] + Keys(m[1..])
  }

  /** No key appears twice, as in a JavaScript `Map`. */
  predicate UniqueKeys(m: seq<Seed>) {
    forall i, j :: 0 <= i < j < |m| ==> m[i].position != m[j].position
  }

  /** `placedTiles.get("x,y")`: the tile stored under `q`, if any. */
  function Get(m: seq<Seed>, q: Pos): (r: Option<Tile>)
    ensures r.None? <==> forall i :: 0 <= i < |m| ==> m[i].position != q
    ensures r.Some? ==> Seed(q, r.value) in m
  {
    if m == [] then None else if m[0].position == q then Some(m[0].tile) else Get(m[1..], q)
  }

  /** `placedTiles.set("x,y", t)`: an existing key keeps its place and takes the new tile; a new key goes last. */
  function Set(m: seq<Seed>, q: Pos, t: Tile): (r: seq<Seed>)
    ensures Get(r, q) == Some(t)
    ensures forall k :: k != q ==> Get(r, k) == Get(m, k)
    ensures (forall i :: 0 <= i < |m| ==> m[i].position != q) ==> r == m + [Seed(q, t)]
  {
    if m == [] then [Seed(q, t)]
    else if m[0].position == q then [Seed(q, t)] + m[1..]
    else [m[0]] + Set(m[1..], q, t)
  }

  /** `placedTiles.delete("x,y")`. */
  function Delete(m: seq<Seed>, q: Pos): (r: seq<Seed>)
    ensures Get(r, q).None?
    ensures forall k :: k != q ==> Get(r, k) == Get(m, k)
    ensures (forall i :: 0 <= i < |m| ==> m[i].position != q) ==> r == m
  {
    if m == [] then []
    else if m[0].position == q then Delete(m[1..], q)
    else [m[0]] + Delete(m[1..], q)
  }

  /** Deleting a key just set restores the map, when the key was new. */
  lemma DeleteUndoesSet(m: seq<Seed>, q: Pos, t: Tile)
    requires forall i :: 0 <= i < |m| ==> m[i].position != q
    ensures Delete(Set(m, q, t), q) == m
  {
    DeleteLast(m, Seed(q, t));
  }

  lemma {:induction false} DeleteLast(m: seq<Seed>, s: Seed)
    requires forall i :: 0 <= i < |m| ==> m[i].position != s.position
    ensures Delete(m + [s], s.position) == m
  {
    if m == [] {
      assert Delete([s][1..], s.position) == [];
    } else {
      assert (m + [s])[1..] == m[1..] + [s];
      DeleteLast(m[1..], s);
      assert [m[0]] + m[1..] == m;
    }
  }

  /**
   * Edge `d` of a seed with rotated sides `sides` at `p`: off the board or with no
   * seed beyond it, anything goes; otherwise the facing rotated sides are equal,
   * or, with `allowBlankMatches`, one of them is Blank.
   */
  predicate SeedEdgeMatches(n: int, m: seq<Seed>, p: Pos, sides: Sides, o: RulesetOptions, d: nat)
    requires d < 4
  {
    var q := Neighbor(p, d);
    !InBounds(n, q) || Get(m, q).None? ||
    var adj := RotatedSides(Get(m, q).value);
    (o.allowBlankMatches && (sides[d] == BLANK || adj[Facing(d)] == BLANK)) || sides[d] == adj[Facing(d)]
  }

  /**
   * `isValidTilePlacement`: the border rule only when the ruleset enables it,
   * then a match on every edge against the seeds placed so far. Neither the
   * board nor any adjacency is consulted.
   */
  predicate IsValidTilePlacement(n: int, p: Pos, t: Tile, m: seq<Seed>, o: RulesetOptions, tileSetName: string) {
    var sides := RotatedSides(t);
    (!o.enableBorderRule || BorderAllows(n, p, sides, tileSetName)) &&
    SeedEdgeMatches(n, m, p, sides, o, 0) && SeedEdgeMatches(n, m, p, sides, o, 1) &&
    SeedEdgeMatches(n, m, p, sides, o, 2) && SeedEdgeMatches(n, m, p, sides, o, 3)
  }

  /** With no seeds placed and the border rule off, every tile fits everywhere: adjacency is never required. */
  lemma NoSeedsNoConstraint(n: int, p: Pos, t: Tile, o: RulesetOptions, name: string)
    requires !o.enableBorderRule
    ensures IsValidTilePlacement(n, p, t, [], o, name)
  {
  }

  /**
   * Against a single in-bounds neighbour seed in direction `d`, a tile fits exactly
   * when the facing rotated sides agree, Blank on either rotated side passing when
   * blank matches are allowed.
   */
  lemma SingleSeedRule(n: int, p: Pos, t: Tile, u: Tile, o: RulesetOptions, name: string, d: nat)
    requires d < 4 && !o.enableBorderRule && InBounds(n, Neighbor(p, d))
    ensures var a, b := RotatedSides(t)[d], RotatedSides(u)[Facing(d)];
      IsValidTilePlacement(n, p, t, [Seed(Neighbor(p, d), u)], o, name) <==>
      (o.allowBlankMatches && (a == BLANK || b == BLANK)) || a == b
  {
    var m := [Seed(Neighbor(p, d), u)];
    forall e | 0 <= e < 4 && e != d ensures SeedEdgeMatches(n, m, p, RotatedSides(t), o, e) {
      NeighborsDiffer(p, d, e);
    }
  }

  /** Different directions lead to different neighbours. */
  lemma NeighborsDiffer(p: Pos, d: nat, e: nat)
    requires d < 4 && e < 4 && d != e
    ensures Neighbor(p, d) != Neighbor(p, e)
  {
  }

  /** The tile a seeding attempt draws: generated with no player and made a starter tile. */
  function Starter(ts: TileSet, draw: TileDraw): (t: Tile)
    requires WellFormed(ts)
    ensures t.isStarterTile
  {
    GenerateTile(ts, draw, None, 1).(isStarterTile := true)
  }

  /** No rotation of `starter` fits at `p` against the seeds `m`. */
  predicate NoFit(n: int, p: Pos, m: seq<Seed>, o: RulesetOptions, name: string, starter: Tile) {
    forall r :: 0 <= r < 4 ==> !IsValidTilePlacement(n, p, starter.(rotation := r), m, o, name)
  }

  /** `tile` is `starter` turned to the first of the rotations 0 to 3 that fits. */
  predicate FirstFit(n: int, p: Pos, m: seq<Seed>, o: RulesetOptions, name: string, starter: Tile, tile: Tile) {
    tile.rotation < 4 && tile == starter.(rotation := tile.rotation) &&
    IsValidTilePlacement(n, p, tile, m, o, name) &&
    forall r :: 0 <= r < tile.rotation ==> !IsValidTilePlacement(n, p, starter.(rotation := r), m, o, name)
  }

  /** None of the draws `lo` to `hi - 1` of `src` yields a starter tile that fits. */
  predicate AllRejected(n: int, p: Pos, m: seq<Seed>, o: RulesetOptions, ts: TileSet, src: TileSource, lo: nat, hi: nat)
    requires WellFormed(ts)
  {
    forall k :: lo <= k < hi ==> NoFit(n, p, m, o, Name(ts), Starter(ts, src.Draw(k)))
  }

  lemma RejectedStep(n: int, p: Pos, m: seq<Seed>, o: RulesetOptions, ts: TileSet, src: TileSource, lo: nat, hi: nat)
    requires WellFormed(ts) && lo <= hi && AllRejected(n, p, m, o, ts, src, lo, hi)
    requires NoFit(n, p, m, o, Name(ts), Starter(ts, src.Draw(hi)))
    ensures AllRejected(n, p, m, o, ts, src, lo, hi + 1)
  {
  }

  /**
   * `generateValidTile(gameState, position, placedTiles)`: nothing off the board;
   * otherwise up to 50 drawn tiles, each tried in rotations 0 to 3, and the first
   * candidate that fits is returned.
   */
  method GenerateValidTile(n: int, p: Pos, m: seq<Seed>, o: RulesetOptions, ts: TileSet, src: TileSource)
    returns (tile: Option<Tile>)
    requires WellFormed(ts)
    modifies src
    ensures !InBounds(n, p) ==> tile.None? && src.used == old(src.used)
    ensures InBounds(n, p) && tile.None? ==>
      src.used == old(src.used) + 50 && AllRejected(n, p, m, o, ts, src, old(src.used), src.used)
    ensures tile.Some? ==>
      InBounds(n, p) && old(src.used) < src.used <= old(src.used) + 50 &&
      FirstFit(n, p, m, o, Name(ts), Starter(ts, src.Draw(src.used - 1)), tile.value) &&
      AllRejected(n, p, m, o, ts, src, old(src.used), src.used - 1)
  {
    if !(0 <= p.x < n && 0 <= p.y < n) {
      return None;
    }
    tile := DrawUntilFit(n, p, m, o, ts, src);
  }

  /** The attempt loop of `generateValidTile`: at most 50 draws, stopping at the first fit. */
  method DrawUntilFit(n: int, p: Pos, m: seq<Seed>, o: RulesetOptions, ts: TileSet, src: TileSource)
    returns (tile: Option<Tile>)
    requires WellFormed(ts)
    modifies src
    ensures tile.None? ==> src.used == old(src.used) + 50 && AllRejected(n, p, m, o, ts, src, old(src.used), src.used)
    ensures tile.Some? ==>
      old(src.used) < src.used <= old(src.used) + 50 &&
      FirstFit(n, p, m, o, Name(ts), Starter(ts, src.Draw(src.used - 1)), tile.value) &&
      AllRejected(n, p, m, o, ts, src, old(src.used), src.used - 1)
  {
    var attempts := 0;
    while attempts < 50
      invariant 0 <= attempts <= 50 && src.used == old(src.used) + attempts
      invariant AllRejected(n, p, m, o, ts, src, old(src.used), src.used)
    {
      ghost var draw := src.Draw(src.used);
      var found := Attempt(n, p, m, o, ts, src, draw);
      if found.Some? {
        assert draw == src.Draw(src.used - 1);
        return found;
      }
      RejectedStep(n, p, m, o, ts, src, old(src.used), src.used - 1);
      attempts := attempts + 1;
    }
    return None;
  }

  /** One attempt of `generateValidTile`: draw a starter tile and try its four rotations. */
  method Attempt(n: int, p: Pos, m: seq<Seed>, o: RulesetOptions, ts: TileSet, src: TileSource, ghost draw: TileDraw)
    returns (found: Option<Tile>)
    requires WellFormed(ts) && draw == src.Draw(src.used)
    modifies src
    ensures src.used == old(src.used) + 1
    ensures found.None? ==> NoFit(n, p, m, o, Name(ts), Starter(ts, draw))
    ensures found.Some? ==> FirstFit(n, p, m, o, Name(ts), Starter(ts, draw), found.value)
  {
    var drawn := src.Generate(ts, None, 1);
    found := TryRotations(n, p, m, o, Name(ts), drawn.(isStarterTile := true));
  }

  /** A first fit is a starter tile, in one of the four rotations, that fits. */
  lemma FirstFitIsValid(n: int, p: Pos, m: seq<Seed>, o: RulesetOptions, name: string, starter: Tile, tile: Tile)
    requires starter.isStarterTile && FirstFit(n, p, m, o, name, starter, tile)
    ensures tile.isStarterTile && tile.rotation < 4 && IsValidTilePlacement(n, p, tile, m, o, name)
  {
  }

  /** The rotation loop of `generateValidTile`: the drawn tile turned to 0, 1, 2, 3 until it fits. */
  method TryRotations(n: int, p: Pos, m: seq<Seed>, o: RulesetOptions, name: string, starter: Tile)
    returns (found: Option<Tile>)
    ensures found.None? ==> NoFit(n, p, m, o, name, starter)
    ensures found.Some? ==> FirstFit(n, p, m, o, name, starter, found.value)
  {
    var rotation := 0;
    while rotation < 4
      invariant 0 <= rotation <= 4
      invariant forall r :: 0 <= r < rotation ==> !IsValidTilePlacement(n, p, starter.(rotation := r), m, o, name)
    {
      var t := starter.(rotation := rotation);
      if IsValidTilePlacement(n, p, t, m, o, name) {
        return Some(t);
      }
      rotation := rotation + 1;
    }
    return None;
  }

  // What every seeding produces

  /** The seeds placed so far all start the game: starter tiles in one of the four rotations. */
  predicate Starters(seeds: seq<Seed>) {
    forall i :: 0 <= i < |seeds| ==> seeds[i].tile.isStarterTile && seeds[i].tile.rotation < 4
  }

  /** Each seed fitted against the seeds placed before it, as `isValidTilePlacement` judged it. */
  predicate Chain(n: int, seeds: seq<Seed>, o: RulesetOptions, name: string) {
    forall i :: 0 <= i < |seeds| ==> IsValidTilePlacement(n, seeds[i].position, seeds[i].tile, seeds[..i], o, name)
  }

  /** A well-formed seeding: distinct on-board positions holding starter tiles placed one fit at a time. */
  predicate Seeding(n: int, seeds: seq<Seed>, o: RulesetOptions, name: string) {
    UniqueKeys(seeds) && Starters(seeds) && Chain(n, seeds, o, name) &&
    forall i :: 0 <= i < |seeds| ==> InBounds(n, seeds[i].position)
  }

  /** Appending a seed that fits against the seeds before it keeps the chain. */
  lemma ChainExtend(n: int, seeds: seq<Seed>, s: Seed, o: RulesetOptions, name: string)
    requires Chain(n, seeds, o, name) && IsValidTilePlacement(n, s.position, s.tile, seeds, o, name)
    ensures Chain(n, seeds + [s], o, name)
  {
    var t := seeds + [s];
    forall i | 0 <= i < |t| ensures IsValidTilePlacement(n, t[i].position, t[i].tile, t[..i], o, name) {
      if i < |seeds| {
        assert t[..i] == seeds[..i] && t[i] == seeds[i];
      } else {
        assert t[..i] == seeds;
      }
    }
  }

  /** Appending a fitting starter tile at a new on-board position keeps a seeding. */
  lemma SeedingExtend(n: int, seeds: seq<Seed>, s: Seed, o: RulesetOptions, name: string)
    requires Seeding(n, seeds, o, name) && InBounds(n, s.position)
    requires s.tile.isStarterTile && s.tile.rotation < 4
    requires forall i :: 0 <= i < |seeds| ==> seeds[i].position != s.position
    requires IsValidTilePlacement(n, s.position, s.tile, seeds, o, name)
    ensures Seeding(n, seeds + [s], o, name)
  {
    ChainExtend(n, seeds, s, o, name);
  }

  // Random seeding

  /** Every cell is a candidate position. */
  predicate AnyCell(p: Pos) {
    true
  }

  /** The `positions` list of `generateValidInitialTiles`: every cell, row by row. */
  method AllPositions(n: nat) returns (positions: seq<Pos>)
    ensures positions == Scan(n, AnyCell)
  {
    positions := [];
    var y := 0;
    while y < n
      invariant 0 <= y <= n && positions == ScanRows(n, AnyCell, y)
    {
      var x := 0;
      while x < n
        invariant 0 <= x <= n && positions == ScanRows(n, AnyCell, y) + ScanRow(AnyCell, y, x)
      {
        ScanRowStep(AnyCell, y, x);
        positions := positions + [Pos(x, y)];
        x := x + 1;
      }
      ScanRowsStep(n, AnyCell, y);
      y := y + 1;
    }
  }

  lemma {:induction false} ScanRowAllLength(y: int, k: nat)
    ensures |ScanRow(AnyCell, y, k)| == k
  {
    if k > 0 {
      ScanRowAllLength(y, k - 1);
    }
  }

  lemma {:induction false} ScanRowsAllLength(n: nat, k: nat)
    ensures |ScanRows(n, AnyCell, k)| == n * k
  {
    if k > 0 {
      ScanRowsAllLength(n, k - 1);
      ScanRowAllLength(k - 1, n);
      assert n * k == n * (k - 1) + n;
    }
  }

  /** The board has `n * n` cells, each listed once. */
  lemma AllPositionsSpec(n: nat)
    ensures |Scan(n, AnyCell)| == n * n && Distinct(Scan(n, AnyCell))
    ensures forall q :: q in Scan(n, AnyCell) <==> InBounds(n, q)
  {
    ScanRowsAllLength(n, n);
    ScanSpec(n, AnyCell);
  }

  lemma {:induction false} DistinctAtMostOnce<T>(s: seq<T>, v: T)
    requires Distinct(s)
    ensures multiset(s)[v] <= 1
  {
    if s != [] {
      var rest := s[1..];
      assert s == [s[0]] + rest;
      assert Distinct(rest) by {
        forall i, j | 0 <= i < j < |rest| ensures rest[i] != rest[j] {
          assert rest[i] == s[i + 1] && rest[j] == s[j + 1];
        }
      }
      DistinctAtMostOnce(rest, v);
      assert forall k :: 0 <= k < |rest| ==> rest[k] != s[0] by {
        forall k | 0 <= k < |rest| ensures rest[k] != s[0] {
          assert rest[k] == s[k + 1];
        }
      }
    }
  }

  lemma TwiceCountsTwice<T>(t: seq<T>, i: nat, j: nat)
    requires i < j < |t| && t[i] == t[j]
    ensures multiset(t)[t[i]] >= 2
  {
    assert t == t[..j] + t[j..];
    assert t[i] == t[..j][i] && t[j] == t[j..][0];
  }

  /** Shuffling keeps a list free of duplicates. */
  lemma DistinctPermuted<T>(s: seq<T>, t: seq<T>)
    requires Distinct(s) && multiset(s) == multiset(t)
    ensures Distinct(t)
  {
    forall i, j | 0 <= i < j < |t| ensures t[i] != t[j] {
      if t[i] == t[j] {
        TwiceCountsTwice(t, i, j);
        DistinctAtMostOnce(s, t[i]);
        assert false;
      }
    }
  }

  /** The cells, then the Fisher-Yates shuffle of `generateValidInitialTiles`. */
  method ShuffledPositions(n: nat, shuffle: nat -> GameUtils.Unit) returns (positions: seq<Pos>)
    ensures multiset(positions) == multiset(Scan(n, AnyCell))
    ensures |positions| == n * n && Distinct(positions)
    ensures forall q :: q in positions <==> InBounds(n, q)
  {
    var all := AllPositions(n);
    AllPositionsSpec(n);
    var cells := new Pos[|all|](i requires 0 <= i < |all| => all[i]);
    assert cells[..] == all;
    var shuffled := GameUtils.ShuffleArray(cells, shuffle);
    positions := shuffled[..];
    assert |positions| == |multiset(positions)| == |multiset(all)| == n * n;
    DistinctPermuted(all, positions);
    forall q ensures q in positions <==> InBounds(n, q) {
      assert q in positions <==> q in multiset(positions);
      assert q in all <==> q in multiset(all);
    }
  }

  /**
   * `generateValidInitialTiles(gameState, count)`: every cell, shuffled; a seed
   * at the first position, then one attempt at each further position while
   * fewer than `count` positions have been tried.
   */
  method GenerateValidInitialTiles(n: nat, count: int, o: RulesetOptions, ts: TileSet, src: TileSource, shuffle: nat -> GameUtils.Unit)
    returns (seeds: seq<Seed>)
    requires n >= 1 && WellFormed(ts)
    modifies src
    ensures Seeding(n, seeds, o, Name(ts))
    ensures |seeds| <= if count <= 1 then 1 else if count < n * n then count else n * n
  {
    var positions := ShuffledPositions(n, shuffle);
    seeds := SeedPositions(n, count, positions, o, ts, src);
  }

  /** The placement loops of `generateValidInitialTiles` over the shuffled `positions`. */
  method SeedPositions(n: nat, count: int, positions: seq<Pos>, o: RulesetOptions, ts: TileSet, src: TileSource)
    returns (seeds: seq<Seed>)
    requires WellFormed(ts) && |positions| >= 1 && Distinct(positions)
    requires forall q :: q in positions ==> InBounds(n, q)
    modifies src
    ensures Seeding(n, seeds, o, Name(ts))
    ensures |seeds| <= if count <= 1 then 1 else if count < |positions| then count else |positions|
  {
    var placed := TrySeed(n, positions[0], [], o, ts, src);
    var i := 1;
    while i < count && i < |positions|
      invariant 1 <= i <= |positions| && i <= (if count <= 1 then 1 else if count < |positions| then count else |positions|)
      invariant |placed| <= i && Seeding(n, placed, o, Name(ts))
      invariant forall j :: 0 <= j < |placed| ==> placed[j].position in positions[..i]
    {
      placed := SeedNext(n, positions, i, placed, o, ts, src);
      i := i + 1;
    }
    seeds := placed;
  }

  /** The loop body of `generateValidInitialTiles` for `positions[i]`: a fresh cell, seeded or skipped. */
  method SeedNext(n: nat, positions: seq<Pos>, i: nat, placed: seq<Seed>, o: RulesetOptions, ts: TileSet, src: TileSource)
    returns (next: seq<Seed>)
    requires WellFormed(ts) && i < |positions| && Distinct(positions)
    requires forall q :: q in positions ==> InBounds(n, q)
    requires Seeding(n, placed, o, Name(ts)) && forall j :: 0 <= j < |placed| ==> placed[j].position in positions[..i]
    modifies src
    ensures Seeding(n, next, o, Name(ts)) && |next| <= |placed| + 1
    ensures forall j :: 0 <= j < |next| ==> next[j].position in positions[..i + 1]
  {
    forall j | 0 <= j < |placed| ensures placed[j].position != positions[i] {
      var k :| 0 <= k < i && positions[k] == placed[j].position;
    }
    next := TrySeed(n, positions[i], placed, o, ts, src);
    assert positions[..i + 1] == positions[..i] + [positions[i]];
  }

  /** One placement of `generateValidInitialTiles`: a valid tile for `pos`, if one is found, joins the map. */
  method TrySeed(n: nat, pos: Pos, placed: seq<Seed>, o: RulesetOptions, ts: TileSet, src: TileSource)
    returns (next: seq<Seed>)
    requires WellFormed(ts) && InBounds(n, pos) && Seeding(n, placed, o, Name(ts))
    requires forall j :: 0 <= j < |placed| ==> placed[j].position != pos
    modifies src
    ensures Seeding(n, next, o, Name(ts))
    ensures next == placed || exists t :: next == placed + [Seed(pos, t)]
  {
    var tile := GenerateValidTile(n, pos, placed, o, ts, src);
    next := placed;
    if tile.Some? {
      FirstFitIsValid(n, pos, placed, o, Name(ts), Starter(ts, src.Draw(src.used - 1)), tile.value);
      SeedingExtend(n, placed, Seed(pos, tile.value), o, Name(ts));
      next := Set(placed, pos, tile.value);
    }
  }

  // The border arrangement

  /** Row 0, left to right. */
  function TopEdge(n: nat): seq<Pos> {
    seq(n, x => Pos(x, 0))
  }

  /** Column `n - 1`, rows 1 to `n - 1` downwards. */
  function RightEdge(n: nat): seq<Pos> {
    if n == 0 then [] else seq(n - 1, k => Pos(n - 1, k + 1))
  }

  /** Row `n - 1`, columns `n - 2` to 0 right to left. */
  function BottomEdge(n: nat): seq<Pos> {
    if n <= 1 then [] else seq(n - 1, k => Pos(n - 2 - k, n - 1))
  }

  /** Column 0, rows `n - 2` to 1 upwards. */
  function LeftEdge(n: nat): seq<Pos> {
    if n <= 2 then [] else seq(n - 2, k => Pos(0, n - 2 - k))
  }

  /** The clockwise border walk of `generateBorderTiles`, starting at the top-left corner. */
  function BorderPath(n: nat): seq<Pos> {
    TopEdge(n) + RightEdge(n) + BottomEdge(n) + LeftEdge(n)
  }

  /** A cell of the outermost ring of an `n` x `n` board. */
  predicate OnBorder(n: int, q: Pos) {
    InBounds(n, q) && (q.x == 0 || q.x == n - 1 || q.y == 0 || q.y == n - 1)
  }

  /** `generateBorderTiles`'s four loops that build `path`. */
  method BorderWalk(n: nat) returns (path: seq<Pos>)
    ensures path == BorderPath(n)
  {
    path := PushTop(n, []);
    path := PushRight(n, path);
    path := PushBottom(n, path);
    path := PushLeft(n, path);
  }

  /** `for (let x = 0; x < N; x++) path.push({x, y: 0})`. */
  method PushTop(n: nat, start: seq<Pos>) returns (path: seq<Pos>)
    ensures path == start + TopEdge(n)
  {
    path := start;
    var x := 0;
    while x < n
      invariant 0 <= x <= n && path == start + TopEdge(n)[..x]
    {
      assert TopEdge(n)[..x + 1] == TopEdge(n)[..x] + [Pos(x, 0)];
      path := path + [Pos(x, 0)];
      x := x + 1;
    }
    assert TopEdge(n)[..n] == TopEdge(n);
  }

  /** `for (let y = 1; y < N; y++) path.push({x: N - 1, y})`. */
  method PushRight(n: nat, start: seq<Pos>) returns (path: seq<Pos>)
    ensures path == start + RightEdge(n)
  {
    path := start;
    var y := 1;
    while y < n
      invariant 0 <= y - 1 <= |RightEdge(n)| && path == start + RightEdge(n)[..y - 1]
    {
      assert RightEdge(n)[..y] == RightEdge(n)[..y - 1] + [Pos(n - 1, y)];
      path := path + [Pos(n - 1, y)];
      y := y + 1;
    }
    assert RightEdge(n)[..|RightEdge(n)|] == RightEdge(n);
  }

  /** `for (let x = N - 2; x >= 0; x--) path.push({x, y: N - 1})`. */
  method PushBottom(n: nat, start: seq<Pos>) returns (path: seq<Pos>)
    ensures path == start + BottomEdge(n)
  {
    path := start;
    var x := n - 2;
    while x >= 0
      invariant 0 <= n - 2 - x <= |BottomEdge(n)| && path == start + BottomEdge(n)[..n - 2 - x]
    {
      assert BottomEdge(n)[..n - 1 - x] == BottomEdge(n)[..n - 2 - x] + [Pos(x, n - 1)];
      path := path + [Pos(x, n - 1)];
      x := x - 1;
    }
    assert BottomEdge(n)[..|BottomEdge(n)|] == BottomEdge(n);
  }

  /** `for (let y = N - 2; y >= 1; y--) path.push({x: 0, y})`. */
  method PushLeft(n: nat, start: seq<Pos>) returns (path: seq<Pos>)
    ensures path == start + LeftEdge(n)
  {
    path := start;
    var y := n - 2;
    while y >= 1
      invariant 0 <= n - 2 - y <= |LeftEdge(n)| && path == start + LeftEdge(n)[..n - 2 - y]
    {
      assert LeftEdge(n)[..n - 1 - y] == LeftEdge(n)[..n - 2 - y] + [Pos(0, y)];
      path := path + [Pos(0, y)];
      y := y - 1;
    }
    assert LeftEdge(n)[..|LeftEdge(n)|] == LeftEdge(n);
  }

  /** The walk visits `4 * (n - 1)` cells on boards of side 2 or more, and the single cell of a 1 x 1 board. */
  lemma BorderPathLength(n: nat)
    ensures n == 1 ==> BorderPath(n) == [Pos(0, 0)]
    ensures n >= 2 ==> |BorderPath(n)| == 4 * (n - 1)
  {
  }

  /** Every cell of the walk lies on the border. */
  lemma BorderPathOnBorder(n: nat, q: Pos)
    requires q in BorderPath(n)
    ensures OnBorder(n, q)
  {
  }

  /** Every border cell is on the walk. */
  lemma BorderOnBorderPath(n: nat, q: Pos)
    requires OnBorder(n, q)
    ensures q in BorderPath(n)
  {
    var t, r, b, l := TopEdge(n), RightEdge(n), BottomEdge(n), LeftEdge(n);
    assert BorderPath(n) == t + r + b + l;
    if q.y == 0 {
      assert t[q.x] == q;
    } else if q.x == n - 1 {
      assert r[q.y - 1] == q;
    } else if q.y == n - 1 {
      assert b[n - 2 - q.x] == q;
    } else {
      assert l[n - 2 - q.y] == q;
    }
  }

  /** The walk never visits a cell twice. */
  lemma BorderPathDistinct(n: nat)
    ensures Distinct(BorderPath(n))
  {
    var t, r, b, l := TopEdge(n), RightEdge(n), BottomEdge(n), LeftEdge(n);
    assert Distinct(t) && Distinct(r) && Distinct(b) && Distinct(l);
    DistinctConcat(t, r);
    DistinctConcat(t + r, b);
    DistinctConcat(t + r + b, l);
  }

  /** A walk cell not yet reached is not a key of a map holding the cells before it. */
  lemma FreshCell(path: seq<Pos>, index: nat, m: seq<Seed>)
    requires Distinct(path) && index < |path| && Keys(m) == path[..index]
    ensures forall i :: 0 <= i < |m| ==> m[i].position != path[index]
  {
    forall i | 0 <= i < |m| ensures m[i].position != path[index] {
      assert m[i].position == Keys(m)[i] == path[i];
    }
  }

  lemma KeysAppend(m: seq<Seed>, s: Seed)
    ensures Keys(m + [s]) == Keys(m) + [s.position]
  {
  }

  /** Setting the next walk cell to a fitting starter tile appends it and extends the filled prefix. */
  lemma FillStep(n: nat, path: seq<Pos>, index: nat, m: seq<Seed>, t: Tile, o: RulesetOptions, name: string)
    requires Distinct(path) && index < |path| && Keys(m) == path[..index] && Starters(m) && Chain(n, m, o, name)
    requires t.isStarterTile && t.rotation < 4 && IsValidTilePlacement(n, path[index], t, m, o, name)
    ensures Set(m, path[index], t) == m + [Seed(path[index], t)]
    ensures Keys(m + [Seed(path[index], t)]) == path[..index + 1]
    ensures Starters(m + [Seed(path[index], t)]) && Chain(n, m + [Seed(path[index], t)], o, name)
  {
    FreshCell(path, index, m);
    ChainExtend(n, m, Seed(path[index], t), o, name);
    KeysAppend(m, Seed(path[index], t));
    assert path[..index + 1] == path[..index] + [path[index]];
  }

  /** The backtracking state of `generateBorderTiles`: the walk and the `placed` map it fills. */
  class BorderSearch {
    const n: nat
    const path: seq<Pos>
    const o: RulesetOptions
    const ts: TileSet
    const src: TileSource
    var placed: seq<Seed>

    constructor (n: nat, path: seq<Pos>, o: RulesetOptions, ts: TileSet, src: TileSource)
      ensures this.n == n && this.path == path && this.o == o && this.ts == ts && this.src == src
      ensures placed == []
    {
      this.n, this.path, this.o, this.ts, this.src := n, path, o, ts, src;
      placed := [];
    }

    /** `placed.clear()`. */
    method Clear()
      modifies this
      ensures placed == []
    {
      placed := [];
    }

    /** The seeds fill the first `index` cells of the walk in order, each a fitting starter tile. */
    ghost predicate FilledUpTo(index: nat)
      reads this
    {
      index <= |path| && Keys(placed) == path[..index] && Starters(placed) && Chain(n, placed, o, Name(ts))
    }

    /**
     * `tryPlace(index)`: on success the seeds cover the whole walk; on failure
     * `placed` is as the call found it.
     */
    method TryPlace(index: nat) returns (ok: bool)
      requires WellFormed(ts) && Distinct(path) && FilledUpTo(index)
      modifies this, src
      ensures ok ==> FilledUpTo(|path|)
      ensures !ok ==> placed == old(placed)
      decreases |path| - index, 2
    {
      if index >= |path| {
        return true;
      }
      var attempts := 0;
      while attempts < 120
        invariant placed == old(placed)
      {
        var tile := src.Generate(ts, None, 1);
        ok := TryTurns(index, tile.(isStarterTile := true));
        if ok {
          return true;
        }
        attempts := attempts + 1;
      }
      return false;
    }

    /** The rotation loop of `tryPlace`: each fitting turn of `tile` is placed and the rest of the walk tried. */
    method TryTurns(index: nat, tile: Tile) returns (ok: bool)
      requires WellFormed(ts) && Distinct(path) && FilledUpTo(index) && index < |path| && tile.isStarterTile
      modifies this, src
      ensures ok ==> FilledUpTo(|path|)
      ensures !ok ==> placed == old(placed)
      decreases |path| - index, 1
    {
      var pos := path[index];
      var r := 0;
      while r < 4
        invariant placed == old(placed)
      {
        var candidate := tile.(rotation := r);
        if IsValidTilePlacement(n, pos, candidate, placed, o, Name(ts)) {
          ok := TryCandidate(index, candidate);
          if ok {
            return true;
          }
        }
        r := r + 1;
      }
      return false;
    }

    /**
     * One fitting turn: set at the next walk cell, the rest of the walk tried,
     * and `placed.delete(key)` when that fails.
     */
    method TryCandidate(index: nat, candidate: Tile) returns (ok: bool)
      requires WellFormed(ts) && Distinct(path) && FilledUpTo(index) && index < |path|
      requires candidate.isStarterTile && candidate.rotation < 4
      requires IsValidTilePlacement(n, path[index], candidate, placed, o, Name(ts))
      modifies this, src
      ensures ok ==> FilledUpTo(|path|)
      ensures !ok ==> placed == old(placed)
      decreases |path| - index, 0
    {
      FreshCell(path, index, placed);
      Extend(index, candidate);
      ok := TryPlace(index + 1);
      if !ok {
        placed := Delete(placed, path[index]);
        DeleteUndoesSet(old(placed), path[index], candidate);
      }
    }

    /** `placed.set(key, {...tile})` at the next cell of the walk. */
    method Extend(index: nat, candidate: Tile)
      requires Distinct(path) && FilledUpTo(index) && index < |path|
      requires candidate.isStarterTile && candidate.rotation < 4
      requires IsValidTilePlacement(n, path[index], candidate, placed, o, Name(ts))
      modifies this
      ensures placed == Set(old(placed), path[index], candidate) == old(placed) + [Seed(path[index], candidate)]
      ensures FilledUpTo(index + 1)
    {
      FillStep(n, path, index, placed, candidate, o, Name(ts));
      placed := Set(placed, path[index], candidate);
    }
  }

  /** A map that fills the border walk is a seeding. */
  lemma FilledBorderIsSeeding(n: nat, seeds: seq<Seed>, o: RulesetOptions, name: string)
    requires Keys(seeds) == BorderPath(n) && Starters(seeds) && Chain(n, seeds, o, name)
    ensures Seeding(n, seeds, o, name)
  {
    BorderPathDistinct(n);
    forall i | 0 <= i < |seeds| ensures InBounds(n, seeds[i].position) {
      assert seeds[i].position == BorderPath(n)[i];
      BorderPathOnBorder(n, seeds[i].position);
    }
    forall i, j | 0 <= i < j < |seeds| ensures seeds[i].position != seeds[j].position {
      assert seeds[i].position == BorderPath(n)[i] && seeds[j].position == BorderPath(n)[j];
    }
  }

  /**
   * `generateBorderTiles(gameState)`: up to 40 fresh backtracking runs over the
   * border walk; the first complete fill is returned, otherwise the map the
   * failed runs left behind, which is empty.
   */
  method GenerateBorderTiles(n: nat, o: RulesetOptions, ts: TileSet, src: TileSource) returns (seeds: seq<Seed>)
    requires WellFormed(ts)
    modifies src
    ensures seeds == [] || Keys(seeds) == BorderPath(n)
    ensures Seeding(n, seeds, o, Name(ts))
  {
    var path := BorderWalk(n);
    BorderPathDistinct(n);
    var search := new BorderSearch(n, path, o, ts, src);
    var globalTry := 0;
    while globalTry < 40
      invariant search.placed == []
    {
      search.Clear();
      var ok := search.TryPlace(0);
      if ok {
        seeds := search.placed;
        FilledBorderIsSeeding(n, seeds, o, Name(ts));
        return;
      }
      globalTry := globalTry + 1;
    }
    seeds := search.placed;
  }

  /**
   * `generateCenterTile(gameState)`: one attempt at the centre cell with no
   * seeds around it.
   */
  method GenerateCenterTile(n: nat, o: RulesetOptions, ts: TileSet, src: TileSource) returns (seeds: seq<Seed>)
    requires WellFormed(ts)
    modifies src
    ensures Seeding(n, seeds, o, Name(ts)) && |seeds| <= 1
    ensures seeds != [] ==> seeds[0].position == Pos(n / 2, n / 2)
    ensures n == 0 ==> seeds == []
    ensures n >= 1 && !o.enableBorderRule ==>
      seeds == [Seed(Pos(n / 2, n / 2), Starter(ts, src.Draw(old(src.used))).(rotation := 0))]
  {
    var pos := Pos(n / 2, n / 2);
    var tile := GenerateValidTile(n, pos, [], o, ts, src);
    seeds := if tile.Some? then [Seed(pos, tile.value)] else [];
    CenterOutcome(n, o, ts, src, old(src.used), src.used, tile, seeds);
  }

  /** What the centre placement makes of `generateValidTile`'s outcome for the centre cell. */
  lemma CenterOutcome(n: nat, o: RulesetOptions, ts: TileSet, src: TileSource, lo: nat, hi: nat, tile: Option<Tile>, seeds: seq<Seed>)
    requires WellFormed(ts) && seeds == if tile.Some? then [Seed(Pos(n / 2, n / 2), tile.value)] else []
    requires !InBounds(n, Pos(n / 2, n / 2)) ==> tile.None?
    requires InBounds(n, Pos(n / 2, n / 2)) && tile.None? ==> hi == lo + 50 && AllRejected(n, Pos(n / 2, n / 2), [], o, ts, src, lo, hi)
    requires tile.Some? ==>
      InBounds(n, Pos(n / 2, n / 2)) && lo < hi &&
      FirstFit(n, Pos(n / 2, n / 2), [], o, Name(ts), Starter(ts, src.Draw(hi - 1)), tile.value) &&
      AllRejected(n, Pos(n / 2, n / 2), [], o, ts, src, lo, hi - 1)
    ensures Seeding(n, seeds, o, Name(ts)) && |seeds| <= 1
    ensures seeds != [] ==> seeds[0].position == Pos(n / 2, n / 2)
    ensures n == 0 ==> seeds == []
    ensures n >= 1 && !o.enableBorderRule ==>
      seeds == [Seed(Pos(n / 2, n / 2), Starter(ts, src.Draw(lo)).(rotation := 0))]
  {
    if tile.Some? {
      CenterSeedFits(n, o, ts, src, lo, hi, tile.value);
    } else {
      assert Seeding(n, [], o, Name(ts));
      if n >= 1 && !o.enableBorderRule {
        CenterNeverRejected(n, o, ts, src, lo, hi);
        assert false;
      }
    }
  }

  /** The first fit found for the centre cell is a seeding; unconstrained, it is the first draw unturned. */
  lemma CenterSeedFits(n: nat, o: RulesetOptions, ts: TileSet, src: TileSource, lo: nat, hi: nat, t: Tile)
    requires WellFormed(ts) && InBounds(n, Pos(n / 2, n / 2)) && lo < hi
    requires FirstFit(n, Pos(n / 2, n / 2), [], o, Name(ts), Starter(ts, src.Draw(hi - 1)), t)
    requires AllRejected(n, Pos(n / 2, n / 2), [], o, ts, src, lo, hi - 1)
    ensures Seeding(n, [Seed(Pos(n / 2, n / 2), t)], o, Name(ts))
    ensures n >= 1 && !o.enableBorderRule ==> t == Starter(ts, src.Draw(lo)).(rotation := 0)
  {
    var pos := Pos(n / 2, n / 2);
    FirstFitIsValid(n, pos, [], o, Name(ts), Starter(ts, src.Draw(hi - 1)), t);
    SeedingExtend(n, [], Seed(pos, t), o, Name(ts));
    assert [] + [Seed(pos, t)] == [Seed(pos, t)];
    if n >= 1 && !o.enableBorderRule {
      UnconstrainedFirstDraw(n, pos, o, ts, src, lo, hi, t);
    }
  }

  /** With no seeds and the border rule off, no run of draws is rejected at the centre. */
  lemma CenterNeverRejected(n: nat, o: RulesetOptions, ts: TileSet, src: TileSource, lo: nat, hi: nat)
    requires WellFormed(ts) && n >= 1 && !o.enableBorderRule && lo < hi
    ensures !AllRejected(n, Pos(n / 2, n / 2), [], o, ts, src, lo, hi)
  {
    NoSeedsNoConstraint(n, Pos(n / 2, n / 2), Starter(ts, src.Draw(lo)).(rotation := 0), o, Name(ts));
  }

  /** With no seeds and the border rule off, the first draw fits at rotation 0. */
  lemma UnconstrainedFirstDraw(n: nat, p: Pos, o: RulesetOptions, ts: TileSet, src: TileSource, lo: nat, hi: nat, tile: Tile)
    requires WellFormed(ts) && !o.enableBorderRule && lo < hi
    requires FirstFit(n, p, [], o, Name(ts), Starter(ts, src.Draw(hi - 1)), tile)
    requires AllRejected(n, p, [], o, ts, src, lo, hi - 1)
    ensures hi - 1 == lo && tile == Starter(ts, src.Draw(lo)).(rotation := 0)
  {
    if hi - 1 > lo {
      NoSeedsNoConstraint(n, p, Starter(ts, src.Draw(lo)).(rotation := 0), o, Name(ts));
      assert false;
    }
    if tile.rotation > 0 {
      NoSeedsNoConstraint(n, p, Starter(ts, src.Draw(lo)).(rotation := 0), o, Name(ts));
      assert false;
    }
  }

  /**
   * What `placeInitialTiles` gives on an N-board, case by case: for 'random', at
   * most `count` seeds clamped to 1 .. N*N; for a 'border' arrangement, nothing or
   * the whole clockwise walk; for a 'centre' arrangement, at most the centre cell;
   * for every other type or style, nothing.
   */
  ghost predicate Placement(n: nat, kind: string, count: int, style: string, seeds: seq<Seed>) {
    (kind == "random" ==> |seeds| <= if count <= 1 then 1 else if count < n * n then count else n * n) &&
    (kind == "arrangement" && style == "border" ==> seeds == [] || Keys(seeds) == BorderPath(n)) &&
    (kind == "arrangement" && style == "centre" ==>
       |seeds| <= 1 && (seeds != [] ==> seeds[0].position == Pos(n / 2, n / 2))) &&
    (kind != "random" && !(kind == "arrangement" && (style == "border" || style == "centre")) ==> seeds == [])
  }

  /** `placeInitialTiles(gameState, config)`: dispatch on the configured type and style. */
  method PlaceInitialTiles(n: nat, kind: string, count: int, style: string, o: RulesetOptions, ts: TileSet,
                           src: TileSource, shuffle: nat -> GameUtils.Unit)
    returns (seeds: seq<Seed>)
    requires WellFormed(ts) && (kind == "random" ==> n >= 1)
    modifies src
    ensures Seeding(n, seeds, o, Name(ts)) && Placement(n, kind, count, style, seeds)
    ensures kind != "random" && !(kind == "arrangement" && (style == "border" || style == "centre")) ==>
      src.used == old(src.used)
  {
    if kind == "random" {
      seeds := GenerateValidInitialTiles(n, count, o, ts, src, shuffle);
    } else if kind == "arrangement" {
      if style == "border" {
        seeds := GenerateBorderTiles(n, o, ts, src);
      } else if style == "centre" {
        seeds := GenerateCenterTile(n, o, ts, src);
      } else {
        seeds := [];
      }
    } else {
      seeds := [];
    }
  }
}
