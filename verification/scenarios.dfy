/**
 Opening moves that show what the constructor's empty-board caches do: the
 a2 rook slides through its own pieces, and a move refused by the check test
 regenerates the caches, after which the same slide is refused.
 */
module Scenarios {
  import opened Options
  import opened Squares
  import opened Pieces
  import opened Moves
  import opened Game
  import opened Rules
  import opened Opening

  lemma RowTwoLabels()
    ensures IndexOf("a2") == Some(8) && IndexOf("e2") == Some(12) && IndexOf("h2") == Some(15)
  {
    IndexOfIsParse("a2");
    IndexOfIsParse("e2");
    IndexOfIsParse("h2");
  }

  /** Against an empty board the a2 rook's rightward ray runs to h2. */
  lemma EmptyRowFromA2()
    ensures 12 in Gen(InitialBoard()[8], {}) && 15 in Gen(InitialBoard()[8], {})
  {
    var r := Slide(8, 0, 1, {});
    assert Reach(8, 0, 1) == 7;
    assert |r| == 7;
    assert r[3] == 12 && r[6] == 15;
  }

  /** Against the real occupancy the a2 rook is stopped on b2, which it
      keeps, and cannot reach e2. */
  lemma BlockedRowFromA2()
    ensures 9 in Gen(InitialBoard()[8], InitialBoard().Keys)
    ensures 12 !in Gen(InitialBoard()[8], InitialBoard().Keys)
  {
    var occ := InitialBoard().Keys;
    assert Slide(8, 0, 1, occ)[0] == 9;
    RayContains(8, 1, 7, occ, 12);
    assert 9 in occ;
    assert forall m :: 1 <= m <= 7 && 12 == Step(8, 1, m) ==> !Clear(8, 1, m, occ) by {
      assert Step(8, 1, 1) == 9;
    }
    assert Reach(8, 0, 1) == 7;
    assert 12 !in Slide(8, 0, 1, occ);
    forall d | d in Slide(8, -1, 0, occ) + Slide(8, 1, 0, occ) + Slide(8, 0, -1, occ)
      ensures d != 12
    {
      if d in Slide(8, -1, 0, occ) {
        SlideMember(8, -1, 0, occ, d);
      } else if d in Slide(8, 1, 0, occ) {
        SlideMember(8, 1, 0, occ, d);
      } else {
        SlideMember(8, 0, -1, occ, d);
      }
    }
  }

  /** The board after a2-e2: the rook stands on e2, every other piece where
      it stood. */
  lemma AfterA2E2Board()
    ensures var b := Relocate(InitialBoard(), 8, 12);
            && b.Keys == InitialBoard().Keys - {8} + {12}
            && b[12] == Piece(White, Rook, 12)
            && forall i :: i in b && i != 12 ==> b[i] == InitialBoard()[i]
  {
  }

  /** After a2-e2 every White piece is out of reach of h1 and every Black
      piece out of reach of a1. */
  lemma AfterA2E2OutOfReach()
    ensures var b := Relocate(InitialBoard(), 8, 12);
            && (forall i :: i in b && b[i].color == White ==> 0 <= b[i].pos < 64 && OutOfReach(b[i], 7))
            && (forall i :: i in b && b[i].color == Black ==> 0 <= b[i].pos < 64 && OutOfReach(b[i], 0))
  {
    var b := Relocate(InitialBoard(), 8, 12);
    AfterA2E2Board();
    WhiteOutOfReachH1();
    BlackOutOfReachA1();
    assert OutOfReach(Piece(White, Rook, 12), 7);
  }

  /** After a2-e2 neither king is attacked. */
  lemma AfterA2E2Safe()
    ensures !InCheck(Tentative(Initial(), 8, 12))
  {
    var t := Tentative(Initial(), 8, 12);
    var b := Relocate(InitialBoard(), 8, 12);
    assert t.board == b;
    AfterA2E2Board();
    AfterA2E2OutOfReach();
    OpeningKings();
    BeyondReach(b, b.Keys, White, 7);
    BeyondReach(b, b.Keys, Black, 0);
    KingsSafe(t, 0, 7);
  }

  /** The constructor's caches, its turn and its game state let the a2 rook
      try e2. */
  lemma OpeningAdmitsA2E2()
    ensures Admissible(Initial(), 8, 12)
  {
    OpeningA2Rook();
    EmptyRowFromA2();
  }

  /** The constructor's a2 rook, its cached list, and the empty e2. */
  lemma OpeningA2Rook()
    ensures Initial().cache[8] == Gen(InitialBoard()[8], {})
    ensures 8 in Initial().board && Initial().board[8].color == White && 12 !in Initial().board
    ensures Initial().turn == White && Initial().status == Unfinished
  {
    OpeningCache(8);
    OpeningState();
    assert 8 in InitialBoard() && InitialBoard()[8].color == White && 12 !in InitialBoard();
  }

  /** The constructor's cache of square `i` is its piece's list against an
      empty board. */
  lemma OpeningCache(i: int)
    requires i in InitialBoard()
    ensures i in Initial().cache && Initial().cache[i] == Gen(InitialBoard()[i], {})
  {
  }

  /** The opening rook move a2-e2 is accepted although b2, c2 and d2 lie in
      between: the constructor's caches were generated for an empty board.
      White's rook then stands on e2 and Black is on turn. */
  lemma RookPassesThroughOpening()
    ensures MakeMove(Initial(), "a2", "e2").0
    ensures MakeMove(Initial(), "a2", "e2").1.board == Relocate(InitialBoard(), 8, 12)
    ensures MakeMove(Initial(), "a2", "e2").1.turn == Black
  {
    RowTwoLabels();
    OpeningAdmitsA2E2();
    AfterA2E2Safe();
    AcceptedIff(Initial(), "a2", "e2");
    AcceptedMove(Initial(), "a2", "e2");
    TurnTable(Initial(), "a2", "e2");
  }

  /** After a2xh2 the White rook on h2 attacks the Black king on h1. */
  lemma AfterA2H2Check()
    ensures InCheck(Tentative(Initial(), 8, 15))
  {
    var t := Tentative(Initial(), 8, 15);
    var b := t.board;
    assert b[15] == Piece(White, Rook, 15) && b[7] == Piece(Black, King, 7);
    var r := Slide(15, -1, 0, b.Keys);
    assert Reach(15, -1, 0) == 1;
    assert r[0] == 7;
    assert 7 in t.cache[15];
    assert 7 in t.whiteMoves;
  }

  /** The constructor's a2 rook may try h2, where the Black rook stands. */
  lemma OpeningAdmitsA2H2()
    ensures Admissible(Initial(), 8, 15)
  {
    OpeningA2Rook();
    OpeningH2Rook();
    EmptyRowFromA2();
  }

  lemma OpeningH2Rook()
    ensures 15 in Initial().board && Initial().board[15].color == Black
  {
    OpeningState();
    assert 15 in InitialBoard() && InitialBoard()[15].color == Black;
  }

  /** Capturing the h2 rook from a2 would attack the Black king on h1, so it is
      refused, and the refusal regenerates every cache from the real
      occupancy. */
  lemma A2H2Refused()
    ensures MakeMove(Initial(), "a2", "h2") == (false, Refresh(InitialBoard(), White, Unfinished))
  {
    RowTwoLabels();
    OpeningAdmitsA2H2();
    AfterA2H2Check();
    CheckRejection(Initial(), "a2", "h2");
  }

  /** The regenerated a2 rook list, against the real occupancy. */
  lemma RefreshedA2Rook()
    ensures 8 in Refresh(InitialBoard(), White, Unfinished).board
    ensures Refresh(InitialBoard(), White, Unfinished).cache[8] == Gen(InitialBoard()[8], InitialBoard().Keys)
  {
  }

  /** That refusal changes the state: the regenerated a2 rook list lacks e2,
      which the constructor's list holds. */
  lemma RefusalChangesCaches()
    ensures 12 !in Refresh(InitialBoard(), White, Unfinished).cache[8]
    ensures 12 in Initial().cache[8]
    ensures Refresh(InitialBoard(), White, Unfinished) != Initial()
  {
    RefreshedA2Rook();
    BlockedRowFromA2();
    OpeningA2Rook();
    EmptyRowFromA2();
  }

  /** After the refusal the same a2-e2 that the opening accepts is refused. */
  lemma A2E2RefusedAfterRefusal()
    ensures !MakeMove(Refresh(InitialBoard(), White, Unfinished), "a2", "e2").0
  {
    RowTwoLabels();
    RefusalChangesCaches();
    RefreshedA2Rook();
    EarlyRejection(Refresh(InitialBoard(), White, Unfinished), "a2", "e2");
  }
}
