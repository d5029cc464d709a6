/** The events the game emits, recorded in order of emission. */
module Events {
  import opened Common
  import opened Tiles

  /** One entry of the `gameEnd` standings. */
  datatype Standing = Standing(id: string, name: string, score: int)

  datatype Event =
    | TileSelected(selected: Option<Tile>)
    | TileRotated(rotation: nat, validMoves: seq<Pos>)
    | TilePlaced(position: Pos, tile: Tile, placedBy: Option<string>, score: Option<int>)
    | ScoreUpdate(playerId: string, newScore: int)
    | TurnChange(nextPlayer: string)
    | GameEnd(finalScores: seq<Standing>)
    | PathUpdate(pathPlayer: string, path: seq<Pos>)

  /**
   * The listeners' view of the game: every emitted event, oldest first.
   * Registering and removing listeners is not modelled; emitting appends.
   */
  class EventLog {
    var events: seq<Event>

    constructor ()
      ensures events == []
    {
      events := [];
    }

    method Emit(e: Event)
      modifies this
      ensures events == old(events) + [e]
    {
      events := events + [e];
    }
  }
}
