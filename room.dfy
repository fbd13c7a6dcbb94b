/**
 * A game room (`Room` in the `game` package): its settings, the players in
 * it keyed by id, the game state and the time the current game started.
 */
module Rooms {
  import opened Common
  import opened Grids
  import opened GameStates

  /** A player as the room knows them. */
  datatype RoomPlayer = RoomPlayer(id: string, userId: int, nickname: string, color: string)

  /** A mode NewGameState places mines for up front. */
  predicate PlacesUpFront(gameMode: string) {
    gameMode == "" || gameMode == "classic"
  }

  class Room {
    var id: string
    var name: string
    var password: string
    var rows: nat
    var cols: nat
    var mines: int
    var gameMode: string
    var quickStart: bool
    var chording: bool
    var creatorId: int
    var players: map<string, RoomPlayer>
    var gameState: GameState
    /** When the current game's first cell was opened (nanoseconds), if it has been. */
    var startTime: Option<int>

    /** The room's game is a board of the room's size with its opened cells counted. */
    ghost predicate Valid()
      reads this`gameState, this`rows, this`cols, this`mines, this`gameMode
      reads gameState`rows, gameState`cols, gameState`board, gameState`revealed, gameState`mines
    {
      gameState.Valid() && gameState.Counted() && gameState.rows == rows && gameState.cols == cols && gameState.mines == mines &&
      gameMode != ""
    }

    /**
     * `NewRoom`: an empty mode becomes classic, no players, no start time,
     * and a new game of the room's size.
     */
    constructor (id: string, name: string, password: string, rows: nat, cols: nat, mines: int, creatorId: int,
                 gameMode: string, quickStart: bool, chording: bool, draws: seq<Pos>)
      requires PlacesUpFront(gameMode) && mines > 0 ==> rows > 0 && cols > 0
      ensures Valid() && fresh(gameState)
      ensures this.gameMode == (if gameMode == "" then "classic" else gameMode)
      ensures this.id == id && this.name == name && this.password == password && this.rows == rows && this.cols == cols
      ensures this.mines == mines && this.creatorId == creatorId && this.quickStart == quickStart && this.chording == chording
      ensures players == map[] && startTime == None
      ensures gameState.revealed == 0 && !gameState.gameOver && !gameState.gameWon && gameState.hintsUsed == 0
    {
      var mode := if gameMode == "" then "classic" else gameMode;
      var gs := NewGameState(rows, cols, mines, mode, false, draws);
      this.id, this.name, this.password := id, name, password;
      this.rows, this.cols, this.mines := rows, cols, mines;
      this.gameMode, this.quickStart, this.chording, this.creatorId := mode, quickStart, chording, creatorId;
      players := map[];
      gameState := gs;
      startTime := None;
    }

    /** `ValidatePassword`: a room without a password lets everyone in, one with a password only its exact text. */
    function ValidatePassword(pw: string): (ok: bool)
      reads this
      ensures password == "" ==> ok
      ensures password != "" ==> (ok <==> pw == password)
    {
      password == "" || password == pw
    }

    /** `GetPlayer`: the player with that id, or none (Go's nil). */
    function GetPlayer(playerId: string): (r: Option<RoomPlayer>)
      reads this
      ensures r.Some? <==> playerId in players
      ensures r.Some? ==> r.value == players[playerId]
    {
      if playerId in players then Some(players[playerId]) else None
    }

    /** `GetPlayerCount`: the number of players in the room, each id once. */
    function GetPlayerCount(): (n: nat)
      reads this
      ensures n == |players.Keys|
    {
      |players|
    }

    /** `AddPlayer`: the id now leads to this player; every other id is untouched. */
    method AddPlayer(playerId: string, player: RoomPlayer)
      modifies this`players
      ensures GetPlayer(playerId) == Some(player)
      ensures forall other :: other != playerId ==> GetPlayer(other) == old(GetPlayer(other))
      ensures GetPlayerCount() == old(GetPlayerCount()) + (if playerId in old(players) then 0 else 1)
    {
      players := players[playerId := player];
    }

    /** `RemovePlayer`: that id is gone, every other id is untouched. */
    method RemovePlayer(playerId: string)
      modifies this`players
      ensures GetPlayer(playerId) == None
      ensures forall other :: other != playerId ==> GetPlayer(other) == old(GetPlayer(other))
      ensures GetPlayerCount() == old(GetPlayerCount()) - (if playerId in old(players) then 1 else 0)
    {
      players := players - {playerId};
    }

    /** `ResetGame`: a new game of the room's size and mode, and no start time. */
    method ResetGame(draws: seq<Pos>)
      requires Valid() && (PlacesUpFront(gameMode) && mines > 0 ==> rows > 0 && cols > 0)
      modifies this`gameState, this`startTime
      ensures Valid() && fresh(gameState) && startTime == None
      ensures gameState.revealed == 0 && !gameState.gameOver && !gameState.gameWon && gameState.hintsUsed == 0
    {
      gameState := NewGameState(rows, cols, mines, gameMode, false, draws);
      startTime := None;
    }
  }
}
