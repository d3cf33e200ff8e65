/**
 The invariant every reachable state keeps: pieces stand on the squares they
 are keyed by, the threat sets are the unions of the caches, exactly one king
 per colour is on the board, neither king is attacked, and the caches are
 either fresh or still the constructor's empty-board ones on the untouched
 opening layout.
 */
module Invariant {
  import opened Squares
  import opened Pieces
  import opened Moves
  import opened Game
  import opened Rules
  import opened Opening

  /** The squares holding a king of colour `c`. */
  function Kings(board: map<int, Piece>, c: Color): set<int>
  {
    set i | i in board && board[i].kind == King && board[i].color == c
  }

  predicate OneKingEach(board: map<int, Piece>)
  {
    |Kings(board, White)| == 1 && |Kings(board, Black)| == 1
  }

  /** The caches are fresh, or they are the constructor's and the opening
      layout has not changed. */
  predicate CacheSound(s: State)
  {
    Fresh(s) || (s.board == InitialBoard() && s.cache == CacheFor(s.board, {}))
  }

  predicate Inv(s: State)
  {
    WellFormed(s) && OneKingEach(s.board) && !InCheck(s) && CacheSound(s)
  }

  /** The opening layout has its White king on a1 and its Black king on h1
      and no other. */
  lemma OpeningKingSets()
    ensures Kings(InitialBoard(), White) == {0}
    ensures Kings(InitialBoard(), Black) == {7}
  {
    OpeningKings();
    var b := InitialBoard();
    assert 0 in b && b[0].kind == King && b[0].color == White;
    assert 7 in b && b[7].kind == King && b[7].color == Black;
  }

  /** The opening layout with the constructor's empty-board caches and
      threat sets equal to their unions satisfies the invariant. */
  lemma OpeningLayoutInv(s: State)
    requires s.board == InitialBoard() && s.cache == CacheFor(s.board, {})
    requires s.whiteMoves == Threats(s.board, s.cache, White)
    requires s.blackMoves == Threats(s.board, s.cache, Black)
    ensures Inv(s)
  {
    OpeningWellFormed(s);
    OpeningKingSets();
    OpeningNotInCheck(s, {});
    assert CacheSound(s);
  }

  lemma OpeningWellFormed(s: State)
    requires s.board == InitialBoard() && s.cache == CacheFor(s.board, {})
    requires s.whiteMoves == Threats(s.board, s.cache, White)
    requires s.blackMoves == Threats(s.board, s.cache, Black)
    ensures WellFormed(s)
  {
    OpeningKings();
    assert s.cache.Keys == s.board.Keys;
  }

  lemma InitialInv()
    ensures Inv(Initial())
  {
    OpeningState();
    OpeningLayoutInv(Initial());
  }

  /** Under a sound cache no cached list contains its own square. */
  lemma CacheOffOrigin(s: State)
    requires WellFormed(s) && CacheSound(s)
    ensures forall i :: i in s.board ==> forall d :: d in CachedMoves(s, i) ==> d != i
  {
    forall i | i in s.board
      ensures forall d :: d in CachedMoves(s, i) ==> d != i
    {
      var occ := if Fresh(s) then s.board.Keys else {};
      assert s.cache[i] == Gen(s.board[i], occ);
      forall d | d in CachedMoves(s, i)
        ensures d != i
      {
        GenOnBoard(s.board[i], occ, d);
      }
    }
  }

  /** A move whose destination holds a king would mean that king was already
      threatened by the mover's colour. */
  lemma KingCaptureMeansCheck(s: State, from: int, to: int)
    requires WellFormed(s) && Admissible(s, from, to)
    ensures to in s.board && s.board[to].kind == King ==> InCheck(s)
  {
    if to in s.board && s.board[to].kind == King {
      var c := s.board[from].color;
      assert from in s.cache && to in s.cache[from];
      assert to in Threats(s.board, s.cache, c);
      assert s.board[to].pos == to;
    }
  }

  /** Where the kings stand after a relocation that captures no king. */
  lemma KingsAfterRelocate(board: map<int, Piece>, from: int, to: int, c: Color)
    requires from in board && from != to
    requires to !in board || board[to].kind != King
    ensures Kings(Relocate(board, from, to), c) ==
            if board[from].kind == King && board[from].color == c
            then Kings(board, c) - {from} + {to}
            else Kings(board, c)
  {
  }

  /** A relocation that captures no king keeps a colour's single king. */
  lemma OneKingOfAfterRelocate(board: map<int, Piece>, from: int, to: int, c: Color)
    requires |Kings(board, c)| == 1
    requires from in board && from != to
    requires to !in board || board[to].kind != King
    ensures |Kings(Relocate(board, from, to), c)| == 1
  {
    KingsAfterRelocate(board, from, to, c);
    if board[from].kind == King && board[from].color == c {
      var k := Kings(board, c);
      assert from in k;
      assert k - {from} == {} by {
        assert |k - {from}| == |k| - 1;
      }
      assert Kings(Relocate(board, from, to), c) == {to};
    }
  }

  /** A relocation that captures no king keeps one king per colour. */
  lemma OneKingAfterRelocate(board: map<int, Piece>, from: int, to: int)
    requires OneKingEach(board)
    requires from in board && from != to
    requires to !in board || board[to].kind != King
    ensures OneKingEach(Relocate(board, from, to))
  {
    OneKingOfAfterRelocate(board, from, to, White);
    OneKingOfAfterRelocate(board, from, to, Black);
  }

  /** Every call of `MakeMove` keeps the invariant. */
  lemma MakeMoveKeepsInv(s: State, current: string, target: string)
    requires Inv(s)
    ensures Inv(MakeMove(s, current, target).1)
  {
    var r := MakeMove(s, current, target);
    EarlyRejection(s, current, target);
    if IndexOf(current).Some? && IndexOf(target).Some? {
      var from, to := IndexOf(current).value, IndexOf(target).value;
      if Admissible(s, from, to) {
        if InCheck(Tentative(s, from, to)) {
          CheckRejection(s, current, target);
          if !Fresh(s) {
            RefreshWellFormed(s.board, s.turn, s.status);
            OpeningNotInCheck(r.1, s.board.Keys);
          }
        } else {
          AcceptedIff(s, current, target);
          AcceptedMove(s, current, target);
          CacheOffOrigin(s);
          KingCaptureMeansCheck(s, from, to);
          OneKingAfterRelocate(s.board, from, to);
        }
      }
    }
  }

  /** Any sequence of calls keeps the invariant. */
  lemma {:induction false} PlayKeepsInv(s: State, moves: seq<(string, string)>)
    requires Inv(s)
    ensures Inv(Play(s, moves))
    decreases |moves|
  {
    if |moves| > 0 {
      MakeMoveKeepsInv(s, moves[0].0, moves[0].1);
      PlayKeepsInv(MakeMove(s, moves[0].0, moves[0].1).1, moves[1..]);
    }
  }

  /** Every state reachable from the opening has one king per colour, each
      on the square it is keyed by, and neither king attacked. */
  lemma ReachableStates(moves: seq<(string, string)>)
    ensures var s := Play(Initial(), moves);
            && |Kings(s.board, White)| == 1 && |Kings(s.board, Black)| == 1
            && (forall i :: i in s.board ==> 0 <= i < 64 && s.board[i].pos == i)
            && !InCheck(s)
  {
    InitialInv();
    PlayKeepsInv(Initial(), moves);
  }

  /** With one king per colour, "some king of colour `c` is on row 7" is
      exactly "the king of colour `c` is on row 7", which is what the
      engine's first-element lookup reads. */
  lemma KingHomeIsKingRow(board: map<int, Piece>, c: Color, k: int)
    requires OneKingEach(board) && k in Kings(board, c)
    ensures KingHome(board, c) <==> Row(board[k].pos) == 7
  {
    var ks := Kings(board, c);
    assert ks - {k} == {} by {
      assert |ks - {k}| == |ks| - 1;
    }
    assert ks == {k};
    if KingHome(board, c) {
      var i :| i in board && board[i].kind == King && board[i].color == c && Row(board[i].pos) == 7;
      assert i in ks;
      assert i == k;
    }
  }

  /** A finished game ignores every further move. */
  lemma {:induction false} FinishedGameFrozen(s: State, moves: seq<(string, string)>)
    requires s.status != Unfinished
    ensures Play(s, moves) == s
    decreases |moves|
  {
    if |moves| > 0 {
      EarlyRejection(s, moves[0].0, moves[0].1);
      FinishedGameFrozen(s, moves[1..]);
    }
  }
}
