/**
 The board state and its orchestration: the cached move lists, the two
 threat sets, the check test, the turn/terminal transition and the move
 operation with its tentative apply, check test and revert.
 */
module Game {
  import opened Options
  import opened Squares
  import opened Pieces
  import opened Moves

  datatype Status = Unfinished | WhiteWon | BlackWon | Tie

  /** The engine's state. `board` maps each occupied square index to its
      piece; `cache` holds each piece's last computed move list, keyed by the
      square it stands on; `whiteMoves` and `blackMoves` are the threat sets. */
  datatype State = State(
    board: map<int, Piece>,
    cache: map<int, seq<int>>,
    turn: Color,
    status: Status,
    whiteMoves: set<int>,
    blackMoves: set<int>)

  /** Every piece's move list, generated against the occupied squares `occ`. */
  function CacheFor(board: map<int, Piece>, occ: set<int>): map<int, seq<int>>
  {
    map i | i in board :: Gen(board[i], occ)
  }

  /** Union of the cached move lists of the pieces of colour `c`. */
  function Threats(board: map<int, Piece>, cache: map<int, seq<int>>, c: Color): set<int>
  {
    set i, d | i in board && i in cache && board[i].color == c && d in cache[i] :: d
  }

  /** `update_moves`: regenerate every cached list from the occupied squares
      and rebuild both threat sets. */
  function Refresh(board: map<int, Piece>, turn: Color, status: Status): State
  {
    var cache := CacheFor(board, board.Keys);
    State(board, cache, turn, status, Threats(board, cache, White), Threats(board, cache, Black))
  }

  /** The fixed opening layout. */
  function InitialBoard(): map<int, Piece>
  {
    map[
      0 := Piece(White, King, 0), 1 := Piece(White, Bishop, 1), 2 := Piece(White, Knight, 2),
      5 := Piece(Black, Knight, 5), 6 := Piece(Black, Bishop, 6), 7 := Piece(Black, King, 7),
      8 := Piece(White, Rook, 8), 9 := Piece(White, Bishop, 9), 10 := Piece(White, Knight, 10),
      13 := Piece(Black, Knight, 13), 14 := Piece(Black, Bishop, 14), 15 := Piece(Black, Rook, 15)]
  }

  /** The constructor. Its caches are generated with an empty set of occupied
      squares: the engine passes the board's label keys where square indices
      are expected, and no index is ever a member of that collection. */
  function Initial(): State
  {
    var board := InitialBoard();
    var cache := CacheFor(board, {});
    State(board, cache, White, Unfinished, Threats(board, cache, White), Threats(board, cache, Black))
  }

  /** `check_checker`: some king stands on a square the other colour threatens. */
  predicate InCheck(s: State)
  {
    exists i :: i in s.board && s.board[i].kind == King &&
      ((s.board[i].color == White && s.board[i].pos in s.blackMoves) ||
       (s.board[i].color == Black && s.board[i].pos in s.whiteMoves))
  }

  /** A king of colour `c` stands on row 7. */
  predicate KingHome(board: map<int, Piece>, c: Color)
  {
    exists i :: i in board && board[i].kind == King && board[i].color == c && Row(board[i].pos) == 7
  }

  /** `game_update`: after White moves the turn passes to Black; after Black
      moves the far-row race is scored, and only a game that goes on returns
      the turn to White. */
  function GameUpdate(s: State): State
  {
    if s.turn == White then s.(turn := Black)
    else if KingHome(s.board, White) && !KingHome(s.board, Black) then s.(status := WhiteWon)
    else if KingHome(s.board, Black) && KingHome(s.board, White) then s.(status := Tie)
    else if KingHome(s.board, Black) then s.(status := BlackWon)
    else s.(turn := White)
  }

  /** The cached move list of the piece on `i`; a piece whose list was never
      computed has none. */
  function CachedMoves(s: State, i: int): seq<int>
  {
    if i in s.cache then s.cache[i] else []
  }

  /** The board after the piece on `from` moves to `to`, capturing whatever
      stood there. */
  function Relocate(board: map<int, Piece>, from: int, to: int): map<int, Piece>
    requires from in board
  {
    (board - {from})[to := board[from].(pos := to)]
  }

  /** `make_move`: the guards in the engine's order, then the tentative move;
      a move that leaves either king attacked is reverted and refused,
      otherwise it is kept and the turn/terminal transition runs. */
  function MakeMove(s: State, current: string, target: string): (bool, State)
  {
    match IndexOf(target)
    case None => (false, s)
    case Some(to) =>
      match IndexOf(current)
      case None => (false, s)
      case Some(from) =>
        if from !in s.board then (false, s)
        else
          var piece := s.board[from];
          var captured := if to in s.board then Some(s.board[to]) else None;
          if s.status != Unfinished then (false, s)
          else if piece.color != s.turn then (false, s)
          else if to !in CachedMoves(s, from) then (false, s)
          else if to in s.board && s.board[to].color == piece.color then (false, s)
          else
            var moved := Relocate(s.board, from, to);
            var tentative := Refresh(moved, s.turn, s.status);
            if InCheck(tentative) then
              var back := (moved - {to})[from := moved[to].(pos := piece.pos)];
              var restored := if captured.Some? then back[to := captured.value] else back;
              (false, Refresh(restored, s.turn, s.status))
            else
              (true, GameUpdate(tentative))
  }

  /** Plays a sequence of (origin, destination) label pairs, ignoring the
      answers. */
  function Play(s: State, moves: seq<(string, string)>): State
    decreases |moves|
  {
    if |moves| == 0 then s
    else Play(MakeMove(s, moves[0].0, moves[0].1).1, moves[1..])
  }
}
