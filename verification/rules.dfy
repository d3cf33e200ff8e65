/**
 What a call of `MakeMove` promises: which calls are refused without any
 change, what a refusal by the check test restores, what an accepted move
 does to the board and the threat sets, and the turn/terminal table.
 */
module Rules {
  import opened Squares
  import opened Pieces
  import opened Moves
  import opened Game

  /** The guards of `make_move` that come before the tentative move, all
      passed for the piece on `from` going to `to`. */
  predicate Admissible(s: State, from: int, to: int)
  {
    && from in s.board
    && s.status == Unfinished
    && s.board[from].color == s.turn
    && to in CachedMoves(s, from)
    && !(to in s.board && s.board[to].color == s.board[from].color)
  }

  /** The state right after the tentative move, before the check test. */
  function Tentative(s: State, from: int, to: int): State
    requires from in s.board
  {
    Refresh(Relocate(s.board, from, to), s.turn, s.status)
  }

  /** Each early guard refuses the move and leaves the whole state, caches
      included, exactly as it was: a destination that is not a square label,
      an origin that is not an occupied square, a finished game, a piece of
      the colour not on turn, a destination missing from the piece's cached
      list, or a destination held by a piece of the mover's colour. */
  lemma EarlyRejection(s: State, current: string, target: string)
    ensures IndexOf(target).None? ==> MakeMove(s, current, target) == (false, s)
    ensures IndexOf(current).None? ==> MakeMove(s, current, target) == (false, s)
    ensures s.status != Unfinished ==> MakeMove(s, current, target) == (false, s)
    ensures IndexOf(current).Some? && IndexOf(target).Some? &&
            !Admissible(s, IndexOf(current).value, IndexOf(target).value) ==>
            MakeMove(s, current, target) == (false, s)
  {
  }

  /** The pieces stand on the squares they are keyed by, the caches are keyed
      like the board, and the threat sets are the unions of the caches. */
  predicate WellFormed(s: State)
  {
    && (forall i :: i in s.board ==> 0 <= i < 64 && s.board[i].pos == i)
    && s.cache.Keys == s.board.Keys
    && s.whiteMoves == Threats(s.board, s.cache, White)
    && s.blackMoves == Threats(s.board, s.cache, Black)
  }

  /** Every cached list was generated from the current occupied squares. */
  predicate Fresh(s: State)
  {
    s.cache == CacheFor(s.board, s.board.Keys)
  }

  /** Rebuilding the caches on a board whose pieces stand on their keys
      yields a well-formed state with fresh caches. */
  lemma RefreshWellFormed(board: map<int, Piece>, turn: Color, status: Status)
    requires forall i :: i in board ==> 0 <= i < 64 && board[i].pos == i
    ensures WellFormed(Refresh(board, turn, status)) && Fresh(Refresh(board, turn, status))
    ensures Refresh(board, turn, status).board == board
  {
    assert CacheFor(board, board.Keys).Keys == board.Keys;
  }

  /** The threat set of colour `c`. */
  function ThreatsOf(s: State, c: Color): set<int>
  {
    if c == White then s.whiteMoves else s.blackMoves
  }

  /** After `update_moves` every threatened square is on the board, and some
      piece of the threatening colour, standing elsewhere, reaches it by its
      pattern on the current board. */
  lemma RefreshThreatsSound(board: map<int, Piece>, turn: Color, status: Status, c: Color, d: int)
    requires forall i :: i in board ==> 0 <= i < 64 && board[i].pos == i
    requires d in ThreatsOf(Refresh(board, turn, status), c)
    ensures 0 <= d < 64
    ensures exists i :: i in board && board[i].color == c && i != d && !OutOfReach(board[i], d)
    ensures exists i :: i in board && board[i].color == c && Attacks(board[i], d, board.Keys)
  {
    var cache := CacheFor(board, board.Keys);
    var i :| i in board && i in cache && board[i].color == c && d in cache[i];
    GenOnBoard(board[i], board.Keys, d);
    GenExact(board[i], board.Keys, d);
    if OutOfReach(board[i], d) {
      GenCannotReach(board[i], board.Keys, d);
    }
  }

  /** After `update_moves` a piece threatens, for its colour, every square
      its pattern reaches on the current board: a king every adjacent square,
      a knight every square at a kept offset, and a rook or bishop every
      square along its lines or diagonals up to and including the first
      occupied one. */
  lemma RefreshThreatsComplete(board: map<int, Piece>, turn: Color, status: Status, i: int, d: int)
    requires forall i :: i in board ==> 0 <= i < 64 && board[i].pos == i
    requires i in board && 0 <= d < 64
    ensures board[i].kind == King && Adjacent(i, d) ==>
              d in ThreatsOf(Refresh(board, turn, status), board[i].color)
    ensures board[i].kind == Knight && d - i in KnightOffsetsFor(Col(i)) ==>
              d in ThreatsOf(Refresh(board, turn, status), board[i].color)
    ensures board[i].kind == Rook && d != i && OnLine(i, d) && LineClear(i, d, board.Keys) ==>
              d in ThreatsOf(Refresh(board, turn, status), board[i].color)
    ensures board[i].kind == Bishop && d != i && OnDiagonal(i, d) && DiagonalClear(i, d, board.Keys) ==>
              d in ThreatsOf(Refresh(board, turn, status), board[i].color)
    ensures Attacks(board[i], d, board.Keys) ==> d in ThreatsOf(Refresh(board, turn, status), board[i].color)
  {
    var p := board[i];
    var cache := CacheFor(board, board.Keys);
    var t := ThreatsOf(Refresh(board, turn, status), p.color);
    assert d in Gen(p, board.Keys) ==> d in t by {
      if d in Gen(p, board.Keys) {
        assert i in cache && d in cache[i];
      }
    }
    GenExact(p, board.Keys, d);
    match p.kind
    case King =>
      if Adjacent(i, d) { KingMovesAdjacent(i, d); }
    case Knight =>
      KnightDestinations(i, d);
    case Rook =>
      if d != i && OnLine(i, d) && LineClear(i, d, board.Keys) {
        RookReaches(i, board.Keys, d);
      }
    case Bishop =>
      if d != i && OnDiagonal(i, d) && DiagonalClear(i, d, board.Keys) {
        BishopReaches(i, board.Keys, d);
      }
  }

  /** After `update_moves` a square is in a colour's threat set exactly when
      some piece of that colour reaches it by its pattern on the current
      board. */
  lemma RefreshThreatsExact(board: map<int, Piece>, turn: Color, status: Status, c: Color, d: int)
    requires forall i :: i in board ==> 0 <= i < 64 && board[i].pos == i
    ensures d in ThreatsOf(Refresh(board, turn, status), c) <==>
            exists i :: i in board && board[i].color == c && Attacks(board[i], d, board.Keys)
  {
    if d in ThreatsOf(Refresh(board, turn, status), c) {
      RefreshThreatsSound(board, turn, status, c, d);
    }
    if exists i :: i in board && board[i].color == c && Attacks(board[i], d, board.Keys) {
      var i :| i in board && board[i].color == c && Attacks(board[i], d, board.Keys);
      RefreshThreatsComplete(board, turn, status, i, d);
    }
  }

  /** Undoing a relocation: the mover goes back under its origin with its
      original index and any captured piece is put back on the destination.
      This gives back the original board, even for a move onto its own
      square. */
  lemma UndoRelocate(board: map<int, Piece>, from: int, to: int)
    requires from in board
    ensures var moved := Relocate(board, from, to);
            var back := (moved - {to})[from := moved[to].(pos := board[from].pos)];
            (if to in board then back[to := board[to]] else back) == board
  {
    var moved := Relocate(board, from, to);
    var back := (moved - {to})[from := moved[to].(pos := board[from].pos)];
    var restored := if to in board then back[to := board[to]] else back;
    assert restored.Keys == board.Keys;
    forall i | i in board
      ensures restored[i] == board[i]
    {
    }
  }

  /** A refused move never changes the board, the turn or the game state. A
      move refused by the check test recomputes every cache from the
      restored board; on a well-formed board whose caches are already fresh
      this leaves the state exactly as it was. */
  lemma CheckRejection(s: State, current: string, target: string)
    ensures var r := MakeMove(s, current, target);
            !r.0 ==> r.1.board == s.board && r.1.turn == s.turn && r.1.status == s.status
    ensures var r := MakeMove(s, current, target);
            !r.0 ==> r.1 == s || r.1 == Refresh(s.board, s.turn, s.status)
    ensures var r := MakeMove(s, current, target);
            WellFormed(s) && Fresh(s) && !r.0 ==> r.1 == s
    ensures IndexOf(current).Some? && IndexOf(target).Some? &&
            Admissible(s, IndexOf(current).value, IndexOf(target).value) &&
            InCheck(Tentative(s, IndexOf(current).value, IndexOf(target).value)) ==>
            MakeMove(s, current, target) == (false, Refresh(s.board, s.turn, s.status))
  {
    if IndexOf(current).Some? && IndexOf(target).Some? {
      var from, to := IndexOf(current).value, IndexOf(target).value;
      if from in s.board {
        UndoRelocate(s.board, from, to);
        if WellFormed(s) {
          RefreshWellFormed(s.board, s.turn, s.status);
        }
      }
    }
  }

  /** A move is accepted exactly when every guard passes and the tentative
      position leaves neither king attacked. */
  lemma AcceptedIff(s: State, current: string, target: string)
    ensures MakeMove(s, current, target).0 <==>
            IndexOf(current).Some? && IndexOf(target).Some? &&
            Admissible(s, IndexOf(current).value, IndexOf(target).value) &&
            !InCheck(Tentative(s, IndexOf(current).value, IndexOf(target).value))
  {
  }

  /** The accepted position is the relocated board with every cache
      regenerated from it, each threat set the union of that colour's fresh
      move lists, and no king on a square the other colour threatens; a
      well-formed state stays well-formed. */
  lemma AcceptedMove(s: State, current: string, target: string)
    ensures var r := MakeMove(s, current, target);
            r.0 ==> var from, to := IndexOf(current).value, IndexOf(target).value;
                    && r.1.board == Relocate(s.board, from, to)
                    && Fresh(r.1)
                    && r.1.whiteMoves == Threats(r.1.board, r.1.cache, White)
                    && r.1.blackMoves == Threats(r.1.board, r.1.cache, Black)
                    && !InCheck(r.1)
    ensures var r := MakeMove(s, current, target);
            r.0 && WellFormed(s) ==> WellFormed(r.1)
  {
    var r := MakeMove(s, current, target);
    if r.0 {
      AcceptedIff(s, current, target);
      var from, to := IndexOf(current).value, IndexOf(target).value;
      var t := Tentative(s, from, to);
      assert r.1 == GameUpdate(t);
      assert !InCheck(t);
      if WellFormed(s) {
        assert to < 64;
        RefreshWellFormed(Relocate(s.board, from, to), s.turn, s.status);
      }
    }
  }

  /** The turn/terminal table of an accepted move. After White, Black is on
      turn and the game goes on. After Black, the far-row race is scored:
      White alone home wins for White, both home is a tie, Black alone home
      wins for Black, and in each of those the turn stays with Black;
      otherwise White is on turn again. */
  lemma TurnTable(s: State, current: string, target: string)
    ensures var r := MakeMove(s, current, target);
            r.0 && s.turn == White ==> r.1.turn == Black && r.1.status == Unfinished
    ensures var r := MakeMove(s, current, target);
            r.0 && s.turn == Black ==>
              var white, black := KingHome(r.1.board, White), KingHome(r.1.board, Black);
              && (white && !black ==> r.1.status == WhiteWon && r.1.turn == Black)
              && (white && black ==> r.1.status == Tie && r.1.turn == Black)
              && (!white && black ==> r.1.status == BlackWon && r.1.turn == Black)
              && (!white && !black ==> r.1.status == Unfinished && r.1.turn == White)
  {
  }
}
