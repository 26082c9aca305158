/** The records the whole application exchanges: players, clues, categories,
    the room snapshot a client renders, and the screens it can show. */
module Types {
  import opened Base

  /** The phase of a room. */
  datatype Status = Waiting | Playing | Finished

  /** The screen a client shows: 'landing' | 'mode-select' | 'lobby' | 'editor' | 'game'. */
  datatype ViewMode = Landing | ModeSelect | Lobby | Editor | Game

  datatype Player = Player(id: string, name: string, isHost: bool, score: int)

  datatype Clue = Clue(id: string, value: int, question: string, answer: string)

  datatype Category = Category(id: string, title: string, clues: seq<Clue>)

  /** The question board: categories from left to right. */
  type Board = seq<Category>

  /** The position of a clue on the board: `{catIndex, clueIndex}`. */
  datatype ClueRef = ClueRef(cat: nat, clue: nat)

  predicate InRange(board: Board, at: ClueRef) {
    at.cat < |board| && at.clue < |board[at.cat].clues|
  }

  function ClueAt(board: Board, at: ClueRef): Clue
    requires InRange(board, at)
  {
    board[at.cat].clues[at.clue]
  }

  /** What a client knows about its room, as delivered by the room subscription. */
  datatype GameState = GameState(
    roomCode: Option<string>,
    hostName: Option<string>,
    players: seq<Player>,
    status: Status,
    board: Board,
    maxPlayers: int)
}
