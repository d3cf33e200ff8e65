/**
 Facts about the fixed opening position: neither king can be reached by the
 other colour, whatever squares the caches were generated against.
 */
module Opening {
  import opened Pieces
  import opened Moves
  import opened Game

  /** A square every cached list of colour `c` avoids is not threatened by `c`. */
  lemma Unthreatened(board: map<int, Piece>, cache: map<int, seq<int>>, c: Color, d: int)
    requires forall i :: i in board && i in cache && board[i].color == c ==> d !in cache[i]
    ensures d !in Threats(board, cache, c)
  {
  }

  /** Pieces of colour `c` that are all geometrically unable to reach `d`
      leave `d` out of their colour's threat set. */
  lemma BeyondReach(board: map<int, Piece>, occ: set<int>, c: Color, d: int)
    requires forall i :: i in board && board[i].color == c ==>
               0 <= board[i].pos < 64 && OutOfReach(board[i], d)
    ensures d !in Threats(board, CacheFor(board, occ), c)
  {
    forall i | i in board && board[i].color == c
      ensures d !in Gen(board[i], occ)
    {
      GenCannotReach(board[i], occ, d);
    }
    Unthreatened(board, CacheFor(board, occ), c, d);
  }

  /** Every White piece of the opening layout is, by its movement pattern,
      out of reach of h1 (7). */
  lemma WhiteOutOfReachH1()
    ensures forall i :: i in InitialBoard() && InitialBoard()[i].color == White ==>
              0 <= InitialBoard()[i].pos < 64 && OutOfReach(InitialBoard()[i], 7)
  {
    var b := InitialBoard();
    forall i | i in b && b[i].color == White
      ensures 0 <= b[i].pos < 64 && OutOfReach(b[i], 7)
    {
      assert i in {0, 1, 2, 8, 9, 10};
    }
  }

  /** Every Black piece of the opening layout is, by its movement pattern,
      out of reach of a1 (0). */
  lemma BlackOutOfReachA1()
    ensures forall i :: i in InitialBoard() && InitialBoard()[i].color == Black ==>
              0 <= InitialBoard()[i].pos < 64 && OutOfReach(InitialBoard()[i], 0)
  {
    var b := InitialBoard();
    forall i | i in b && b[i].color == Black
      ensures 0 <= b[i].pos < 64 && OutOfReach(b[i], 0)
    {
      assert i in {5, 6, 7, 13, 14, 15};
    }
  }

  /** In the opening layout no White piece can reach the Black king on h1
      (7), whatever squares the sliding pieces treat as occupied. */
  lemma WhiteMissesH1(occ: set<int>)
    ensures 7 !in Threats(InitialBoard(), CacheFor(InitialBoard(), occ), White)
  {
    WhiteOutOfReachH1();
    BeyondReach(InitialBoard(), occ, White, 7);
  }

  /** In the opening layout no Black piece can reach the White king on a1
      (0), whatever squares the sliding pieces treat as occupied. */
  lemma BlackMissesA1(occ: set<int>)
    ensures 0 !in Threats(InitialBoard(), CacheFor(InitialBoard(), occ), Black)
  {
    BlackOutOfReachA1();
    BeyondReach(InitialBoard(), occ, Black, 0);
  }

  /** A board whose only kings are White's on `wk` and Black's on `bk` is
      not in check when neither square is in the other colour's threat
      set. */
  lemma KingsSafe(s: State, wk: int, bk: int)
    requires forall i :: i in s.board && s.board[i].kind == King ==>
               (i == wk && s.board[i] == Piece(White, King, wk)) || (i == bk && s.board[i] == Piece(Black, King, bk))
    requires wk !in s.blackMoves && bk !in s.whiteMoves
    ensures !InCheck(s)
  {
  }

  /** The opening layout, with caches generated against any set of occupied
      squares, leaves neither king attacked. */
  lemma OpeningNotInCheck(s: State, occ: set<int>)
    requires s.board == InitialBoard() && s.cache == CacheFor(s.board, occ)
    requires s.whiteMoves == Threats(s.board, s.cache, White)
    requires s.blackMoves == Threats(s.board, s.cache, Black)
    ensures !InCheck(s)
  {
    WhiteMissesH1(occ);
    BlackMissesA1(occ);
    OpeningKings();
    KingsSafe(s, 0, 7);
  }

  /** The opening layout has one king per colour, on a1 and h1. */
  lemma OpeningKings()
    ensures forall i :: i in InitialBoard() && InitialBoard()[i].kind == King ==>
              (i == 0 && InitialBoard()[i].color == White) || (i == 7 && InitialBoard()[i].color == Black)
    ensures forall i :: i in InitialBoard() ==> 0 <= i < 64 && InitialBoard()[i].pos == i
  {
  }

  /** The constructor's board, caches, turn and game state. */
  lemma OpeningState()
    ensures Initial().board == InitialBoard()
    ensures Initial().cache == CacheFor(InitialBoard(), {})
    ensures Initial().whiteMoves == Threats(Initial().board, Initial().cache, White)
    ensures Initial().blackMoves == Threats(Initial().board, Initial().cache, Black)
    ensures Initial().turn == White && Initial().status == Unfinished
  {
  }
}
