/** Players, their racks and scores, and the turn order (`player-state.js`). */
module PlayerState {
  import opened Common
  import opened Tiles
  import opened TileSets
  import opened Events

  /** One entry of the `players` configuration: a name and an optional colour. */
  datatype PlayerConfig = PlayerConfig(name: string, color: Option<string>)

  /**
   * The colour `initializePlayers` gives seat `index`: the configured colour when
   * it is truthy, else the seat colour, else black.
   */
  function ColorFor(configs: seq<PlayerConfig>, index: nat): (c: string)
    requires index < |configs|
    ensures TruthyString(configs[index].color) ==> c == configs[index].color.value
    ensures !TruthyString(configs[index].color) && |configs| == 1 ==> c == DEFAULT_PLAYER_COLORS[0]
    ensures !TruthyString(configs[index].color) && |configs| > 1 && index + 1 < |DEFAULT_PLAYER_COLORS| ==>
      c == DEFAULT_PLAYER_COLORS[index + 1]
    ensures !TruthyString(configs[index].color) && |configs| > 1 && index + 1 >= |DEFAULT_PLAYER_COLORS| ==>
      c == "#000000"
  {
    if TruthyString(configs[index].color) then configs[index].color.value
    else StringOr(SeatColor(index, |configs|), "#000000")
  }

  /** `tiles.findIndex(t => t.id === tileId)`: the first index with that id, or -1. */
  function IndexOfTile(tiles: seq<Tile>, tileId: string): (i: int)
    ensures -1 <= i < |tiles|
    ensures i == -1 <==> forall j :: 0 <= j < |tiles| ==> tiles[j].id != tileId
    ensures i >= 0 ==> tiles[i].id == tileId && forall j :: 0 <= j < i ==> tiles[j].id != tileId
  {
    if tiles == [] then -1
    else if tiles[0].id == tileId then 0
    else
      var r := IndexOfTile(tiles[1..], tileId);
      assert forall j :: 1 <= j < |tiles| ==> tiles[j] == tiles[1..][j - 1];
      if r == -1 then -1 else r + 1
  }

  /** The rack after `removeTile(tileId)`: the first tile with that id spliced out. */
  function WithoutTile(tiles: seq<Tile>, tileId: string): seq<Tile> {
    var i := IndexOfTile(tiles, tileId);
    if i == -1 then tiles else tiles[..i] + tiles[i + 1..]
  }

  /**
   * Removing a tile drops exactly the first tile with that id and keeps the
   * rest in order; without such a tile the rack is unchanged.
   */
  lemma WithoutTileSpec(tiles: seq<Tile>, tileId: string)
    ensures (forall j :: 0 <= j < |tiles| ==> tiles[j].id != tileId) ==> WithoutTile(tiles, tileId) == tiles
    ensures var i, r := IndexOfTile(tiles, tileId), WithoutTile(tiles, tileId);
      i >= 0 ==>
        |r| == |tiles| - 1 &&
        (forall j :: 0 <= j < i ==> r[j] == tiles[j]) &&
        (forall j :: i <= j < |r| ==> r[j] == tiles[j + 1])
  {
    var i := IndexOfTile(tiles, tileId);
    if i >= 0 {
      var front, back := tiles[..i], tiles[i + 1..];
      var r := front + back;
      assert |r| == |tiles| - 1;
      forall j | 0 <= j < i ensures r[j] == tiles[j] {
        assert r[j] == front[j];
      }
      forall j | i <= j < |r| ensures r[j] == tiles[j + 1] {
        assert r[j] == back[j - i];
      }
    }
  }

  /** Taking out the element at `i` leaves the rest of the multiset. */
  lemma MultisetWithout<T>(s: seq<T>, i: nat)
    requires i < |s|
    ensures multiset(s[..i] + s[i + 1..]) + multiset{s[i]} == multiset(s)
  {
    assert s == s[..i] + [s[i]] + s[i + 1..];
  }

  /** The tile removed and the tiles kept together are the rack as it was. */
  lemma WithoutTileMultiset(tiles: seq<Tile>, tileId: string)
    ensures var i := IndexOfTile(tiles, tileId);
      i >= 0 ==> multiset(WithoutTile(tiles, tileId)) + multiset{tiles[i]} == multiset(tiles)
  {
    var i := IndexOfTile(tiles, tileId);
    if i >= 0 {
      MultisetWithout(tiles, i);
    }
  }

  /** A player: identity, name, score, rack and colour. */
  class Player {
    const id: string
    const name: string
    var score: int
    var bonusScore: int
    var tiles: seq<Tile>
    var color: Option<string>

    /** `new Player(name, id)`: the id given, or a generated one when it is missing or empty. */
    constructor (name: string, id: Option<string>, generatedId: string)
      ensures this.name == name && this.id == StringOr(id, generatedId)
      ensures score == 0 && bonusScore == 0 && tiles == [] && color == None
    {
      this.name := name;
      this.id := StringOr(id, generatedId);
      score := 0;
      bonusScore := 0;
      tiles := [];
      color := None;
    }

    /** `addScore(points, isBonus)`: the points count towards the bonus score only when flagged. */
    method AddScore(points: int, isBonus: bool)
      modifies this
      ensures score == old(score) + points
      ensures bonusScore == old(bonusScore) + (if isBonus then points else 0)
      ensures tiles == old(tiles) && color == old(color)
    {
      score := score + points;
      if isBonus {
        bonusScore := bonusScore + points;
      }
    }

    method SetTiles(tiles: seq<Tile>)
      modifies this
      ensures this.tiles == tiles
      ensures score == old(score) && bonusScore == old(bonusScore) && color == old(color)
    {
      this.tiles := tiles;
    }

    method SetColor(color: Option<string>)
      modifies this
      ensures this.color == color
      ensures score == old(score) && bonusScore == old(bonusScore) && tiles == old(tiles)
    {
      this.color := color;
    }

    /** `removeTile(tileId)`. */
    method RemoveTile(tileId: string)
      modifies this
      ensures tiles == WithoutTile(old(tiles), tileId)
      ensures score == old(score) && bonusScore == old(bonusScore) && color == old(color)
    {
      var index := IndexOfTile(tiles, tileId);
      if index != -1 {
        tiles := tiles[..index] + tiles[index + 1..];
      }
    }

    /** `addTile(tile)`: appended at the end of the rack. */
    method AddTile(tile: Tile)
      modifies this
      ensures tiles == old(tiles) + [tile]
      ensures score == old(score) && bonusScore == old(bonusScore) && color == old(color)
    {
      tiles := tiles + [tile];
    }
  }

  /** What a player holds, as a value: the fields a turn can change, and the identity. */
  datatype Seat = Seat(id: string, name: string, score: int, bonusScore: int, tiles: seq<Tile>, color: Option<string>)

  function SeatOf(p: Player): Seat
    reads p
  {
    Seat(p.id, p.name, p.score, p.bonusScore, p.tiles, p.color)
  }

  /** The players' current state, seat by seat. */
  function Roster(ps: seq<Player>): (r: seq<Seat>)
    reads ps
    ensures |r| == |ps|
  {
    seq(|ps|, i reads ps requires 0 <= i < |ps| => SeatOf(ps[i]))
  }

  /** Seat `i`, when there is one, with `points` more. */
  function Credited(r: seq<Seat>, i: int, points: int): seq<Seat> {
    if 0 <= i < |r| then r[i := r[i].(score := r[i].score + points)] else r
  }

  /** Seat `i`, when there is one, without tile `oldTileId` and with `newTile` at the end of its rack. */
  function Refilled(r: seq<Seat>, i: int, oldTileId: string, newTile: Tile): seq<Seat> {
    if 0 <= i < |r| then r[i := r[i].(tiles := WithoutTile(r[i].tiles, oldTileId) + [newTile])] else r
  }

  /**
   * Crediting changes only the score of seat `i`, by `points`; refilling
   * changes only the rack of seat `i`; neither adds or removes a seat.
   */
  lemma CreditedSpec(r: seq<Seat>, i: int, points: int)
    ensures |Credited(r, i, points)| == |r|
    ensures forall j :: 0 <= j < |r| ==>
      Credited(r, i, points)[j] == if j == i then r[j].(score := r[j].score + points) else r[j]
  {
  }

  lemma RefilledSpec(r: seq<Seat>, i: int, oldTileId: string, newTile: Tile)
    ensures |Refilled(r, i, oldTileId, newTile)| == |r|
    ensures forall j :: 0 <= j < |r| ==>
      Refilled(r, i, oldTileId, newTile)[j] ==
        if j == i then r[j].(tiles := WithoutTile(r[j].tiles, oldTileId) + [newTile]) else r[j]
  {
  }

  /** `players.findIndex(p => p.id === playerId)`: the first seat with that id, or -1. */
  function IndexOfPlayer(players: seq<Player>, playerId: string): (i: int)
    ensures -1 <= i < |players|
    ensures i == -1 <==> forall j :: 0 <= j < |players| ==> players[j].id != playerId
    ensures i >= 0 ==> players[i].id == playerId && forall j :: 0 <= j < i ==> players[j].id != playerId
  {
    if players == [] then -1
    else if players[0].id == playerId then 0
    else
      var r := IndexOfPlayer(players[1..], playerId);
      assert forall j :: 1 <= j < |players| ==> players[j] == players[1..][j - 1];
      if r == -1 then -1 else r + 1
  }

  /** The seat after seat `i` of `n`, wrapping to the first. */
  function NextSeat(i: int, n: nat): (j: nat)
    requires 0 <= i && n > 0
    ensures j < n && (i + 1 < n ==> j == i + 1)
  {
    (i + 1) % n
  }

  /** The players, in seat order, and whose turn it is. */
  class PlayerManager {
    var players: seq<Player>
    var currentPlayerIndex: int

    constructor ()
      ensures players == [] && currentPlayerIndex == 0
    {
      players := [];
      currentPlayerIndex := 0;
    }

    /** The seats hold distinct player objects and the turn index is not negative. */
    ghost predicate Valid()
      reads this
    {
      Distinct(players) && 0 <= currentPlayerIndex
    }

    /** `getCurrentPlayer()`: `undefined` when the index is past the seats. */
    function CurrentPlayer(): (p: Option<Player>)
      reads this
      ensures p.Some? <==> 0 <= currentPlayerIndex < |players|
      ensures p.Some? ==> p.value == players[currentPlayerIndex]
    {
      if 0 <= currentPlayerIndex < |players| then Some(players[currentPlayerIndex]) else None
    }

    /** `getPlayerById(playerId)`: the first player with that id. */
    function GetPlayerById(playerId: string): (p: Option<Player>)
      reads this
      ensures p.None? <==> forall j :: 0 <= j < |players| ==> players[j].id != playerId
      ensures p.Some? ==> p.value == players[IndexOfPlayer(players, playerId)]
    {
      var i := IndexOfPlayer(players, playerId);
      if i == -1 then None else Some(players[i])
    }

    /** `getPlayerColor`: the colour of the first player with that id, `null` for none. */
    function PlayerColor(playerId: string): (c: Option<string>)
      reads this, players
      ensures GetPlayerById(playerId).None? ==> c.None?
      ensures GetPlayerById(playerId).Some? ==> c == GetPlayerById(playerId).value.color
    {
      var i := IndexOfPlayer(players, playerId);
      if i == -1 then None else players[i].color
    }

    /**
     * `initializePlayers(playerConfigs)`: one fresh player per configuration, in
     * order, each with its colour and a rack of `rackSize` tiles generated for
     * its seat. The players' generated ids come from `ids`.
     */
    method InitializePlayers(configs: seq<PlayerConfig>, rackSize: nat, ts: TileSet, src: TileSource, ids: nat -> string)
      requires WellFormed(ts)
      modifies this, src
      ensures |players| == |configs| && Distinct(players) && currentPlayerIndex == old(currentPlayerIndex)
      ensures src.used == old(src.used) + |configs| * rackSize
      ensures forall i :: 0 <= i < |players| ==> fresh(players[i])
      ensures Seated(Roster(players), configs, rackSize, ts, src.draws, old(src.used), ids)
    {
      var seats: seq<Player> := [];
      var i := 0;
      while i < |configs|
        invariant 0 <= i <= |configs| && |seats| == i && Distinct(seats)
        modifies src
        invariant src.used == old(src.used) + i * rackSize
        invariant forall j :: 0 <= j < i ==>
          fresh(seats[j]) && SeatedAs(SeatOf(seats[j]), configs, j, rackSize, ts, src.draws, old(src.used) + j * rackSize, ids(j))
      {
        ghost var start := src.used;
        var player := SeatPlayer(configs, i, rackSize, ts, src, ids(i));
        assert start == old(src.used) + i * rackSize;
        assert (i + 1) * rackSize == i * rackSize + rackSize;
        seats := seats + [player];
        i := i + 1;
      }
      players := seats;
      assert forall j :: 0 <= j < |players| ==> Roster(players)[j] == SeatOf(players[j]);
    }

    /** Every seat as `initializePlayers` leaves it, the racks drawn seat by seat from draw `first` on. */
    static ghost predicate Seated(r: seq<Seat>, configs: seq<PlayerConfig>, rackSize: nat, ts: TileSet,
                                  draws: nat -> TileDraw, first: nat, ids: nat -> string)
      requires WellFormed(ts)
    {
      |r| == |configs| &&
      forall i :: 0 <= i < |r| ==> SeatedAs(r[i], configs, i, rackSize, ts, draws, first + i * rackSize, ids(i))
    }

    /**
     * Seat `i` as `initializePlayers` leaves it: the configured name, the given
     * id, no score, the seat's colour and a rack of `rackSize` tiles generated
     * for the seat from draw `first` on.
     */
    static ghost predicate SeatedAs(p: Seat, configs: seq<PlayerConfig>, i: nat, rackSize: nat, ts: TileSet,
                                    draws: nat -> TileDraw, first: nat, id: string)
      requires WellFormed(ts) && i < |configs|
    {
      p.name == configs[i].name && p.id == id && p.score == 0 && p.bonusScore == 0 &&
      p.color == Some(ColorFor(configs, i)) && |p.tiles| == rackSize &&
      forall k :: 0 <= k < rackSize ==> p.tiles[k] == GenerateTile(ts, draws(first + k), Some(i), |configs|)
    }

    /** One step of `initializePlayers`: the player for seat `i`, coloured, with a fresh rack. */
    static method SeatPlayer(configs: seq<PlayerConfig>, i: nat, rackSize: nat, ts: TileSet, src: TileSource, id: string)
      returns (player: Player)
      requires WellFormed(ts) && i < |configs|
      modifies src
      ensures fresh(player) && src.used == old(src.used) + rackSize
      ensures SeatedAs(SeatOf(player), configs, i, rackSize, ts, src.draws, old(src.used), id)
    {
      player := new Player(configs[i].name, None, id);
      player.SetColor(Some(ColorFor(configs, i)));
      var rack := DrawRack(ts, src, rackSize, i, |configs|);
      player.SetTiles(rack);
    }

    /** `Array(rackSize).fill(null).map(() => tileSet.generateTile(index, playerCount))`. */
    static method DrawRack(ts: TileSet, src: TileSource, rackSize: nat, index: nat, playerCount: int) returns (rack: seq<Tile>)
      requires WellFormed(ts)
      modifies src
      ensures src.used == old(src.used) + rackSize && |rack| == rackSize
      ensures forall k :: 0 <= k < rackSize ==> rack[k] == GenerateTile(ts, src.draws(old(src.used) + k), Some(index), playerCount)
    {
      rack := [];
      var k := 0;
      while k < rackSize
        invariant 0 <= k <= rackSize && |rack| == k && src.used == old(src.used) + k
        invariant forall j :: 0 <= j < k ==> rack[j] == GenerateTile(ts, src.draws(old(src.used) + j), Some(index), playerCount)
      {
        var t := src.Generate(ts, Some(index), playerCount);
        rack := rack + [t];
        k := k + 1;
      }
    }

    /** `nextTurn()`: the turn passes to the next seat, cyclically, and that player is returned. */
    method NextTurn() returns (next: Player)
      requires Valid() && |players| > 0
      modifies this
      ensures Valid() && players == old(players)
      ensures currentPlayerIndex == NextSeat(old(currentPlayerIndex), |players|)
      ensures next == players[currentPlayerIndex]
    {
      currentPlayerIndex := NextSeat(currentPlayerIndex, |players|);
      next := players[currentPlayerIndex];
    }

    /** `skipTurn()`: the turn passes to the next seat and a `turnChange` names that player. */
    method SkipTurn(log: EventLog)
      requires Valid() && |players| > 0
      modifies this, log
      ensures Valid() && players == old(players)
      ensures currentPlayerIndex == NextSeat(old(currentPlayerIndex), |players|)
      ensures log.events == old(log.events) + [TurnChange(players[currentPlayerIndex].id)]
    {
      var next := NextTurn();
      log.Emit(TurnChange(next.id));
    }

    /**
     * `replaceTile(playerId, oldTileId, newTile)`: the first player with that id
     * loses the tile and gains the new one at the end; no player, no change.
     */
    method ReplaceTile(playerId: string, oldTileId: string, newTile: Tile)
      requires Valid()
      modifies players
      ensures Roster(players) == Refilled(old(Roster(players)), IndexOfPlayer(players, playerId), oldTileId, newTile)
    {
      var i := IndexOfPlayer(players, playerId);
      if i != -1 {
        var player := players[i];
        player.RemoveTile(oldTileId);
        player.AddTile(newTile);
        forall j | 0 <= j < |players|
          ensures Roster(players)[j] == Refilled(old(Roster(players)), i, oldTileId, newTile)[j]
        {
          assert j != i ==> players[j] != player;
        }
      }
    }

    /**
     * `updatePlayerScore(playerId, points)`: the first player with that id gains
     * the points and a `scoreUpdate` is emitted for them; no player, no change.
     */
    method UpdatePlayerScore(playerId: string, points: int, log: EventLog)
      requires Valid()
      modifies players, log
      ensures Roster(players) == Credited(old(Roster(players)), IndexOfPlayer(players, playerId), points)
      ensures var i := IndexOfPlayer(players, playerId);
        log.events == old(log.events) + (if i == -1 then [] else [ScoreUpdate(playerId, old(Roster(players))[i].score + points)])
    {
      var i := IndexOfPlayer(players, playerId);
      if i != -1 {
        var player := players[i];
        player.AddScore(points, false);
        log.Emit(ScoreUpdate(player.id, player.score));
        forall j | 0 <= j < |players|
          ensures Roster(players)[j] == Credited(old(Roster(players)), i, points)[j]
        {
          assert j != i ==> players[j] != player;
        }
      }
    }
  }
}
