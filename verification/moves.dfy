/**
 Pseudo-legal move generation, one generator per piece kind. Each is a pure
 function of the origin index and the set of occupied indices; none looks at
 colours, whose turn it is, or king safety.
 */
module Moves {
  import opened Squares
  import opened Pieces

  /** The square `m` steps of `delta` away from `from`. */
  function Step(from: int, delta: int, m: int): int
  {
    from + m * delta
  }

  /** No square strictly before step `m` of the walk is occupied. */
  ghost predicate Clear(from: int, delta: int, m: int, occ: set<int>)
  {
    forall j :: 1 <= j < m ==> Step(from, delta, j) !in occ
  }

  /** One ray of a sliding piece: walk at most `n` steps of `delta` from
      `from`, keeping every visited square and stopping right after the first
      occupied one. */
  function Ray(from: int, delta: int, n: nat, occ: set<int>): (r: seq<int>)
    ensures |r| <= n
    ensures n > 0 ==> |r| > 0
    ensures forall k :: 0 <= k < |r| ==> r[k] == Step(from, delta, k + 1)
    ensures forall k :: 0 <= k < |r| - 1 ==> r[k] !in occ
    ensures |r| < n ==> r[|r| - 1] in occ
    decreases n
  {
    if n == 0 then []
    else
      var sq := from + delta;
      if sq in occ then [sq] else [sq] + Ray(sq, delta, n - 1, occ)
  }

  /** Steps available from coordinate `x` in direction `d` before the edge. */
  function Room(x: int, d: int): nat
  {
    if d < 0 then (if x > 0 then x else 0)
    else if 7 - x > 0 then 7 - x else 0
  }

  /** Number of steps the engine's loop takes in direction (`dr`, `dc`):
      every moving coordinate must stay in [0, 8). */
  function Reach(loc: int, dr: int, dc: int): nat
  {
    if dr == 0 then Room(Col(loc), dc)
    else if dc == 0 then Room(Row(loc), dr)
    else
      var a, b := Room(Row(loc), dr), Room(Col(loc), dc);
      if a < b then a else b
  }

  /** The ray from `loc` in direction (`dr` rows, `dc` columns). */
  function Slide(loc: int, dr: int, dc: int, occ: set<int>): seq<int>
  {
    Ray(loc, 8 * dr + dc, Reach(loc, dr, dc), occ)
  }

  /** Rook: down, up, left, right. */
  function RookMoves(loc: int, occ: set<int>): seq<int>
  {
    Slide(loc, -1, 0, occ) + Slide(loc, 1, 0, occ) + Slide(loc, 0, -1, occ) + Slide(loc, 0, 1, occ)
  }

  /** Bishop: down-left, up-left, down-right, up-right. */
  function BishopMoves(loc: int, occ: set<int>): seq<int>
  {
    Slide(loc, -1, -1, occ) + Slide(loc, 1, -1, occ) + Slide(loc, -1, 1, occ) + Slide(loc, 1, 1, occ)
  }

  /** `[loc + o for o in offsets if -1 < loc + o < 64]`: a square is kept
      exactly when it is on the board and its offset is in the list. */
  function Shift(loc: int, offsets: seq<int>): (r: seq<int>)
    ensures forall d :: d in r <==> 0 <= d < 64 && d - loc in offsets
  {
    if |offsets| == 0 then []
    else
      var d := loc + offsets[0];
      var rest := Shift(loc, offsets[1..]);
      assert forall o :: o in offsets <==> o == offsets[0] || o in offsets[1..];
      (if 0 <= d < 64 then [d] else []) + rest
  }

  const KnightOffsets: seq<int> := [-10, 6, -17, 15, -15, 17, -6, 10]

  /** The knight's offset list after the engine's column filter. */
  function KnightOffsetsFor(col: int): seq<int>
  {
    var o0 := KnightOffsets;
    var o1 := if col == 0 then o0[2..] else o0;
    var o2 := if col == 1 then o1[1..] else o1;
    var o3 := if col == 6 then o2[..|o2| - 1] else o2;
    if col == 7 then o3[..|o3| - 2] else o3
  }

  function KnightMoves(loc: int): seq<int>
  {
    Shift(loc, KnightOffsetsFor(Col(loc)))
  }

  const KingOffsets: seq<int> := [-9, -1, 7, -8, 8, -7, 1, 9]

  /** The king's offset list after the engine's column filter. */
  function KingOffsetsFor(col: int): seq<int>
  {
    var o0 := KingOffsets;
    var o1 := if col == 0 then o0[3..] else o0;
    if col == 7 then o1[..|o1| - 3] else o1
  }

  function KingMoves(loc: int): seq<int>
  {
    Shift(loc, KingOffsetsFor(Col(loc)))
  }

  /** A piece's move list, dispatched on its kind. Knights and kings ignore
      the occupied squares. */
  function Gen(p: Piece, occ: set<int>): seq<int>
  {
    match p.kind
    case Rook => RookMoves(p.pos, occ)
    case Bishop => BishopMoves(p.pos, occ)
    case Knight => KnightMoves(p.pos)
    case King => KingMoves(p.pos)
  }

  // ---------------------------------------------------------------------
  // Rays

  /** Reference description of a ray: a square is on it exactly when it is
      some step `m` within reach and every earlier step is empty. So the
      first occupied square is kept and nothing beyond it. */
  lemma RayContains(from: int, delta: int, n: nat, occ: set<int>, d: int)
    ensures d in Ray(from, delta, n, occ) <==>
            exists m :: 1 <= m <= n && d == Step(from, delta, m) && Clear(from, delta, m, occ)
  {
    var r := Ray(from, delta, n, occ);
    if d in r {
      var k :| 0 <= k < |r| && r[k] == d;
      assert Clear(from, delta, k + 1, occ) by {
        forall j | 1 <= j < k + 1
          ensures Step(from, delta, j) !in occ
        {
          assert r[j - 1] == Step(from, delta, j);
        }
      }
    }
    if exists m :: 1 <= m <= n && d == Step(from, delta, m) && Clear(from, delta, m, occ) {
      var m :| 1 <= m <= n && d == Step(from, delta, m) && Clear(from, delta, m, occ);
      if |r| < m {
        assert r[|r| - 1] == Step(from, delta, |r|);
      } else {
        assert r[m - 1] == d;
      }
    }
  }

  /** Walking at most `Room(x, d)` steps of `d` from `x` stays within 0..7. */
  lemma RoomBound(x: int, d: int, m: nat)
    requires 0 <= x < 8 && -1 <= d <= 1
    requires d != 0 ==> m <= Room(x, d)
    ensures 0 <= x + m * d < 8
  {
    if d < 0 {
      assert x + m * d == x - m;
    } else if d > 0 {
      assert x + m * d == x + m;
    }
  }

  /** `m` flat steps of `8 * dr + dc` are `m * dr` rows and `m * dc` columns. */
  lemma Spread(r: int, c: int, m: int, dr: int, dc: int)
    ensures 8 * r + c + m * (8 * dr + dc) == 8 * (r + m * dr) + (c + m * dc)
  {
    assert m * (8 * dr + dc) == 8 * (m * dr) + m * dc;
  }

  /** Square `k` of the ray from `loc` in direction (`dr`, `dc`) is on the
      board, `k + 1` rows and columns away in that direction. */
  lemma SlideGeometry(loc: int, dr: int, dc: int, occ: set<int>, k: int)
    requires 0 <= loc < 64
    requires -1 <= dr <= 1 && -1 <= dc <= 1
    requires 0 <= k < |Slide(loc, dr, dc, occ)|
    ensures var d := Slide(loc, dr, dc, occ)[k];
            0 <= d < 64 && Row(d) == Row(loc) + (k + 1) * dr && Col(d) == Col(loc) + (k + 1) * dc
  {
    var m := k + 1;
    var r, c := Row(loc), Col(loc);
    assert m <= Reach(loc, dr, dc);
    var d := Slide(loc, dr, dc, occ)[k];
    assert d == loc + m * (8 * dr + dc);
    assert loc == 8 * r + c;
    var r', c' := r + m * dr, c + m * dc;
    assert dr != 0 ==> m <= Room(r, dr);
    assert dc != 0 ==> m <= Room(c, dc);
    RoomBound(r, dr, m);
    RoomBound(c, dc, m);
    Spread(r, c, m, dr, dc);
    RowColOf(r', c');
  }

  /** No slide takes more than seven steps. */
  lemma ReachBound(loc: int, dr: int, dc: int)
    requires 0 <= loc < 64
    ensures Reach(loc, dr, dc) <= 7
  {
    assert 0 <= Row(loc) < 8 && 0 <= Col(loc) < 8;
  }

  /** Helper: a member of a slide is square `k` of it for some `k`. */
  lemma SlideMember(loc: int, dr: int, dc: int, occ: set<int>, d: int)
    requires 0 <= loc < 64
    requires -1 <= dr <= 1 && -1 <= dc <= 1 && (dr != 0 || dc != 0)
    requires d in Slide(loc, dr, dc, occ)
    ensures 0 <= d < 64 && d != loc
    ensures exists m :: 1 <= m <= 7 && Row(d) == Row(loc) + m * dr && Col(d) == Col(loc) + m * dc
  {
    var s := Slide(loc, dr, dc, occ);
    var k :| 0 <= k < |s| && s[k] == d;
    SlideGeometry(loc, dr, dc, occ, k);
    assert k + 1 <= 7 by {
      assert k + 1 <= Reach(loc, dr, dc);
      ReachBound(loc, dr, dc);
    }
    assert Row(d) != Row(loc) || Col(d) != Col(loc);
  }

  /** A member of a slide is step `m` of it for some `m`, and every step
      before it is empty. */
  lemma SlideStep(loc: int, dr: int, dc: int, occ: set<int>, d: int) returns (m: nat)
    requires 0 <= loc < 64
    requires -1 <= dr <= 1 && -1 <= dc <= 1 && (dr != 0 || dc != 0)
    requires d in Slide(loc, dr, dc, occ)
    ensures 1 <= m && Row(d) == Row(loc) + m * dr && Col(d) == Col(loc) + m * dc
    ensures Clear(loc, 8 * dr + dc, m, occ)
  {
    var s := Slide(loc, dr, dc, occ);
    var k :| 0 <= k < |s| && s[k] == d;
    SlideGeometry(loc, dr, dc, occ, k);
    m := k + 1;
    var delta := 8 * dr + dc;
    forall j | 1 <= j < m
      ensures Step(loc, delta, j) !in occ
    {
      assert s[j - 1] == Step(loc, delta, j);
    }
  }

  /** The square `t` steps out on a path clear before step `m` is empty
      when `t < m`. */
  lemma ClearStep(loc: int, dr: int, dc: int, occ: set<int>, m: nat, t: int, e: int)
    requires 0 <= loc < 64 && 1 <= t < m && 0 <= e < 64
    requires Clear(loc, 8 * dr + dc, m, occ)
    requires Row(e) == Row(loc) + t * dr && Col(e) == Col(loc) + t * dc
    ensures e !in occ
  {
    StepCoords(loc, dr, dc, t);
    assert e == 8 * Row(e) + Col(e);
    var f := Step(loc, 8 * dr + dc, t);
    assert f == 8 * Row(f) + Col(f);
  }

  /** In row and column terms: a square strictly between the origin
      (`r`, `c`) and step `m` of a straight direction is step `t` of it for
      some `t` below `m`. */
  lemma LineIndex(r: int, c: int, rd: int, cd: int, re: int, ce: int, dr: int, dc: int, m: int) returns (t: int)
    requires -1 <= dr <= 1 && -1 <= dc <= 1 && (dr == 0) != (dc == 0) && 1 <= m
    requires rd == r + m * dr && cd == c + m * dc
    requires || (re == r == rd && (c < ce < cd || cd < ce < c))
             || (ce == c == cd && (r < re < rd || rd < re < r))
    ensures 1 <= t < m && re == r + t * dr && ce == c + t * dc
  {
    if dr == 1 {
      t := re - r;
    } else if dr == -1 {
      t := r - re;
    } else if dc == 1 {
      t := ce - c;
    } else {
      t := c - ce;
    }
  }

  /** In row and column terms: a square strictly between the origin
      (`r`, `c`) and step `m` of a diagonal direction is step `t` of it for
      some `t` below `m`. */
  lemma DiagonalIndex(r: int, c: int, rd: int, cd: int, re: int, ce: int, dr: int, dc: int, m: int) returns (t: int)
    requires (dr == 1 || dr == -1) && (dc == 1 || dc == -1) && 1 <= m
    requires rd == r + m * dr && cd == c + m * dc
    requires r < re < rd || rd < re < r
    requires || (re - r == ce - c && rd - r == cd - c)
             || (re - r == c - ce && rd - r == c - cd)
    ensures 1 <= t < m && re == r + t * dr && ce == c + t * dc
  {
    t := if dr == 1 then re - r else r - re;
  }

  /** Between the origin and any square of a straight slide, nothing is
      occupied. */
  lemma SlideLineClear(loc: int, dr: int, dc: int, occ: set<int>, d: int)
    requires 0 <= loc < 64
    requires -1 <= dr <= 1 && -1 <= dc <= 1 && (dr == 0) != (dc == 0)
    requires d in Slide(loc, dr, dc, occ)
    ensures LineClear(loc, d, occ)
  {
    var m := SlideStep(loc, dr, dc, occ, d);
    forall e | 0 <= e < 64 && LineBetween(loc, d, e)
      ensures e !in occ
    {
      var t := LineIndex(Row(loc), Col(loc), Row(d), Col(d), Row(e), Col(e), dr, dc, m);
      ClearStep(loc, dr, dc, occ, m, t, e);
    }
  }

  /** Between the origin and any square of a diagonal slide, nothing is
      occupied. */
  lemma SlideDiagonalClear(loc: int, dr: int, dc: int, occ: set<int>, d: int)
    requires 0 <= loc < 64
    requires (dr == 1 || dr == -1) && (dc == 1 || dc == -1)
    requires d in Slide(loc, dr, dc, occ)
    ensures DiagonalClear(loc, d, occ)
  {
    var m := SlideStep(loc, dr, dc, occ, d);
    forall e | 0 <= e < 64 && DiagonalBetween(loc, d, e)
      ensures e !in occ
    {
      var t := DiagonalIndex(Row(loc), Col(loc), Row(d), Col(d), Row(e), Col(e), dr, dc, m);
      ClearStep(loc, dr, dc, occ, m, t, e);
    }
  }

  /** Every rook destination is on the board, is not the origin, shares
      exactly one of row and column with it, and has nothing occupied
      strictly between. */
  lemma RookMovesOnLines(loc: int, occ: set<int>, d: int)
    requires 0 <= loc < 64
    requires d in RookMoves(loc, occ)
    ensures 0 <= d < 64 && d != loc
    ensures (Row(d) == Row(loc)) != (Col(d) == Col(loc))
    ensures LineClear(loc, d, occ)
  {
    if d in Slide(loc, -1, 0, occ) {
      SlideMember(loc, -1, 0, occ, d);
      SlideLineClear(loc, -1, 0, occ, d);
    } else if d in Slide(loc, 1, 0, occ) {
      SlideMember(loc, 1, 0, occ, d);
      SlideLineClear(loc, 1, 0, occ, d);
    } else if d in Slide(loc, 0, -1, occ) {
      SlideMember(loc, 0, -1, occ, d);
      SlideLineClear(loc, 0, -1, occ, d);
    } else {
      SlideMember(loc, 0, 1, occ, d);
      SlideLineClear(loc, 0, 1, occ, d);
    }
  }

  /** Every bishop destination is on the board, is not the origin, lies on
      one of its diagonals, and has nothing occupied strictly between. */
  lemma BishopMovesOnDiagonals(loc: int, occ: set<int>, d: int)
    requires 0 <= loc < 64
    requires d in BishopMoves(loc, occ)
    ensures 0 <= d < 64 && d != loc
    ensures Row(d) - Row(loc) == Col(d) - Col(loc) || Row(d) - Row(loc) == Col(loc) - Col(d)
    ensures DiagonalClear(loc, d, occ)
  {
    if d in Slide(loc, -1, -1, occ) {
      SlideMember(loc, -1, -1, occ, d);
      SlideDiagonalClear(loc, -1, -1, occ, d);
    } else if d in Slide(loc, 1, -1, occ) {
      SlideMember(loc, 1, -1, occ, d);
      SlideDiagonalClear(loc, 1, -1, occ, d);
    } else if d in Slide(loc, -1, 1, occ) {
      SlideMember(loc, -1, 1, occ, d);
      SlideDiagonalClear(loc, -1, 1, occ, d);
    } else {
      SlideMember(loc, 1, 1, occ, d);
      SlideDiagonalClear(loc, 1, 1, occ, d);
    }
  }

  /** A square sharing neither row nor column with the origin is never a
      rook destination. */
  lemma RookCannotReach(loc: int, occ: set<int>, d: int)
    requires 0 <= loc < 64
    requires Row(d) != Row(loc) && Col(d) != Col(loc)
    ensures d !in RookMoves(loc, occ)
  {
    forall e | e in RookMoves(loc, occ) ensures e != d { RookMovesOnLines(loc, occ, e); }
  }

  /** A square off the origin's diagonals is never a bishop destination. */
  lemma BishopCannotReach(loc: int, occ: set<int>, d: int)
    requires 0 <= loc < 64
    requires Row(d) - Row(loc) != Col(d) - Col(loc) && Row(d) - Row(loc) != Col(loc) - Col(d)
    ensures d !in BishopMoves(loc, occ)
  {
    forall e | e in BishopMoves(loc, occ) ensures e != d { BishopMovesOnDiagonals(loc, occ, e); }
  }

  /** A slide runs to the board edge: every step that keeps both coordinates
      on the board is within its reach. */
  lemma SlideReachesEdge(loc: int, dr: int, dc: int, m: nat)
    requires 0 <= loc < 64
    requires -1 <= dr <= 1 && -1 <= dc <= 1 && (dr != 0 || dc != 0)
    requires 1 <= m && 0 <= Row(loc) + m * dr < 8 && 0 <= Col(loc) + m * dc < 8
    ensures m <= Reach(loc, dr, dc)
  {
  }

  /** Step `m` of direction (`dr`, `dc`), in row and column terms, while it
      stays on the board. */
  lemma StepCoords(loc: int, dr: int, dc: int, m: int)
    requires 0 <= loc < 64
    requires 0 <= Row(loc) + m * dr < 8 && 0 <= Col(loc) + m * dc < 8
    ensures var e := Step(loc, 8 * dr + dc, m);
            0 <= e < 64 && Row(e) == Row(loc) + m * dr && Col(e) == Col(loc) + m * dc
  {
    var r, c := Row(loc), Col(loc);
    assert loc == 8 * r + c;
    Spread(r, c, m, dr, dc);
    RowColOf(r + m * dr, c + m * dc);
  }

  /** The square `m` steps out in direction (`dr`, `dc`) is on the slide
      when every square before it is empty, so a blocker is kept and the
      slide stops only there or at the edge. */
  lemma PathReaches(loc: int, dr: int, dc: int, occ: set<int>, d: int, m: nat)
    requires 0 <= loc < 64 && 0 <= d < 64
    requires -1 <= dr <= 1 && -1 <= dc <= 1 && (dr != 0 || dc != 0) && 1 <= m
    requires Row(d) == Row(loc) + m * dr && Col(d) == Col(loc) + m * dc
    requires Clear(loc, 8 * dr + dc, m, occ)
    ensures d in Slide(loc, dr, dc, occ)
  {
    SlideReachesEdge(loc, dr, dc, m);
    StepCoords(loc, dr, dc, m);
    assert d == 8 * Row(d) + Col(d);
    var e := Step(loc, 8 * dr + dc, m);
    assert e == 8 * Row(e) + Col(e);
    RayContains(loc, 8 * dr + dc, Reach(loc, dr, dc), occ, d);
  }

  /** Square `e` lies strictly between `loc` and `d` on a shared row or
      column. */
  predicate LineBetween(loc: int, d: int, e: int)
  {
    || (Row(e) == Row(loc) == Row(d) && (Col(loc) < Col(e) < Col(d) || Col(d) < Col(e) < Col(loc)))
    || (Col(e) == Col(loc) == Col(d) && (Row(loc) < Row(e) < Row(d) || Row(d) < Row(e) < Row(loc)))
  }

  /** Square `e` lies strictly between `loc` and `d` on a shared diagonal. */
  predicate DiagonalBetween(loc: int, d: int, e: int)
  {
    && (Row(loc) < Row(e) < Row(d) || Row(d) < Row(e) < Row(loc))
    && (|| (Row(e) - Row(loc) == Col(e) - Col(loc) && Row(d) - Row(loc) == Col(d) - Col(loc))
        || (Row(e) - Row(loc) == Col(loc) - Col(e) && Row(d) - Row(loc) == Col(loc) - Col(d)))
  }

  /** `d` shares a row or a column with `loc`. */
  predicate OnLine(loc: int, d: int)
  {
    Row(d) == Row(loc) || Col(d) == Col(loc)
  }

  /** `d` lies on one of the diagonals through `loc`. */
  predicate OnDiagonal(loc: int, d: int)
  {
    Row(d) - Row(loc) == Col(d) - Col(loc) || Row(d) - Row(loc) == Col(loc) - Col(d)
  }

  /** No square strictly between `loc` and `d` on their row or column is
      occupied. */
  ghost predicate LineClear(loc: int, d: int, occ: set<int>)
  {
    forall e :: 0 <= e < 64 && LineBetween(loc, d, e) ==> e !in occ
  }

  /** No square strictly between `loc` and `d` on their diagonal is
      occupied. */
  ghost predicate DiagonalClear(loc: int, d: int, occ: set<int>)
  {
    forall e :: 0 <= e < 64 && DiagonalBetween(loc, d, e) ==> e !in occ
  }

  /** The unit step towards `b` from `a`. */
  function Toward(a: int, b: int): int
  {
    if a < b then 1 else if b < a then -1 else 0
  }

  /** A square sharing a row or column with the origin, with every square
      strictly between them empty, is a rook destination. */
  lemma RookReaches(loc: int, occ: set<int>, d: int)
    requires 0 <= loc < 64 && 0 <= d < 64 && d != loc
    requires OnLine(loc, d) && LineClear(loc, d, occ)
    ensures d in RookMoves(loc, occ)
  {
    var r, c, rd, cd := Row(loc), Col(loc), Row(d), Col(d);
    assert loc == 8 * r + c && d == 8 * rd + cd;
    var dr, dc := Toward(r, rd), Toward(c, cd);
    var m := if r < rd then rd - r else if rd < r then r - rd else if c < cd then cd - c else c - cd;
    assert rd == r + m * dr && cd == c + m * dc;
    var delta := 8 * dr + dc;
    forall j | 1 <= j < m
      ensures Step(loc, delta, j) !in occ
    {
      StepCoords(loc, dr, dc, j);
      assert LineBetween(loc, d, Step(loc, delta, j));
    }
    PathReaches(loc, dr, dc, occ, d, m);
  }

  /** A square on one of the origin's diagonals, with every square strictly
      between them empty, is a bishop destination. */
  lemma BishopReaches(loc: int, occ: set<int>, d: int)
    requires 0 <= loc < 64 && 0 <= d < 64 && d != loc
    requires OnDiagonal(loc, d) && DiagonalClear(loc, d, occ)
    ensures d in BishopMoves(loc, occ)
  {
    var r, c, rd, cd := Row(loc), Col(loc), Row(d), Col(d);
    assert loc == 8 * r + c && d == 8 * rd + cd;
    var dr, dc := Toward(r, rd), Toward(c, cd);
    var m := if r < rd then rd - r else r - rd;
    assert rd == r + m * dr && cd == c + m * dc;
    var delta := 8 * dr + dc;
    forall j | 1 <= j < m
      ensures Step(loc, delta, j) !in occ
    {
      StepCoords(loc, dr, dc, j);
      assert DiagonalBetween(loc, d, Step(loc, delta, j));
    }
    PathReaches(loc, dr, dc, occ, d, m);
  }

  // ---------------------------------------------------------------------
  // Knight and king

  /** The column filters, spelled out: the knight drops -10 and 6 on column
      0, -10 on column 1, 10 on column 6 and -6 and 10 on column 7. */
  lemma KnightOffsetsTable(col: int)
    ensures col == 0 ==> KnightOffsetsFor(col) == [-17, 15, -15, 17, -6, 10]
    ensures col == 1 ==> KnightOffsetsFor(col) == [6, -17, 15, -15, 17, -6, 10]
    ensures col == 6 ==> KnightOffsetsFor(col) == [-10, 6, -17, 15, -15, 17, -6]
    ensures col == 7 ==> KnightOffsetsFor(col) == [-10, 6, -17, 15, -15, 17]
    ensures col !in {0, 1, 6, 7} ==> KnightOffsetsFor(col) == KnightOffsets
  {
  }

  /** The king drops -9, -1 and 7 on column 0 and -7, 1 and 9 on column 7. */
  lemma KingOffsetsTable(col: int)
    ensures col == 0 ==> KingOffsetsFor(col) == [-8, 8, -7, 1, 9]
    ensures col == 7 ==> KingOffsetsFor(col) == [-9, -1, 7, -8, 8]
    ensures col != 0 && col != 7 ==> KingOffsetsFor(col) == KingOffsets
  {
  }

  /** Where the flat offset `8 * dr + dc` lands in row and column terms: on
      the intended square when the column stays on the board, otherwise one
      row off and on the far side. */
  lemma OffsetLanding(loc: int, dr: int, dc: int)
    requires 0 <= loc < 64 && -2 <= dc <= 2
    ensures var d, c := loc + 8 * dr + dc, Col(loc) + dc;
            && (0 <= c < 8 ==> Row(d) == Row(loc) + dr && Col(d) == c)
            && (c < 0 ==> Row(d) == Row(loc) + dr - 1 && Col(d) == c + 8)
            && (c >= 8 ==> Row(d) == Row(loc) + dr + 1 && Col(d) == c - 8)
  {
    var r, c := Row(loc), Col(loc);
    assert loc == 8 * r + c;
    if 0 <= c + dc < 8 {
      RowColOf(r + dr, c + dc);
      assert loc + 8 * dr + dc == 8 * (r + dr) + (c + dc);
    } else if c + dc < 0 {
      RowColOf(r + dr - 1, c + dc + 8);
      assert loc + 8 * dr + dc == 8 * (r + dr - 1) + (c + dc + 8);
    } else {
      RowColOf(r + dr + 1, c + dc - 8);
      assert loc + 8 * dr + dc == 8 * (r + dr + 1) + (c + dc - 8);
    }
  }

  /** Knight destinations are exactly the on-board squares origin + offset
      for the offsets its column filter keeps. */
  lemma KnightDestinations(loc: int, d: int)
    ensures d in KnightMoves(loc) <==> 0 <= d < 64 && d - loc in KnightOffsetsFor(Col(loc))
  {
    var offsets := KnightOffsetsFor(Col(loc));
    assert KnightMoves(loc) == Shift(loc, offsets);
  }

  /** A real knight jump: two rows and one column, or one row and two columns. */
  predicate KnightJump(loc: int, d: int)
  {
    var dr, dc := Row(d) - Row(loc), Col(d) - Col(loc);
    ((dr == 1 || dr == -1) && (dc == 2 || dc == -2)) || ((dr == 2 || dr == -2) && (dc == 1 || dc == -1))
  }

  /** The offsets the engine keeps although they cross the left or right edge. */
  predicate Wraps(col: int, o: int)
  {
    (col == 0 && (o == -17 || o == 15)) || (col == 1 && o == 6) ||
    (col == 6 && o == -6) || (col == 7 && (o == -15 || o == 17))
  }

  /** A knight-shaped offset lands on a real knight jump exactly when the
      column stays on the board. */
  lemma JumpLanding(loc: int, dr: int, dc: int)
    requires 0 <= loc < 64
    requires ((dr == 1 || dr == -1) && (dc == 2 || dc == -2)) || ((dr == 2 || dr == -2) && (dc == 1 || dc == -1))
    ensures KnightJump(loc, loc + 8 * dr + dc) <==> 0 <= Col(loc) + dc < 8
  {
    OffsetLanding(loc, dr, dc);
  }

  /** Which kept offsets leave the column on the board: all of them except
      the wrapping ones. */
  lemma KnightFilter(c: int, o: int)
    requires 0 <= c < 8 && o in KnightOffsetsFor(c)
    ensures o in KnightOffsets
    ensures (o == -10 || o == 6) ==> (0 <= c - 2 <==> !Wraps(c, o))
    ensures (o == -17 || o == 15) ==> (0 <= c - 1 <==> !Wraps(c, o))
    ensures (o == -15 || o == 17) ==> (c + 1 < 8 <==> !Wraps(c, o))
    ensures (o == -6 || o == 10) ==> (c + 2 < 8 <==> !Wraps(c, o))
  {
    KnightOffsetsTable(c);
  }

  /** One kept offset `8 * dr + dc`: its destination is a knight jump
      exactly when the offset does not wrap. */
  lemma KeptOffsetJump(loc: int, d: int, dr: int, dc: int)
    requires 0 <= loc < 64 && d == loc + 8 * dr + dc
    requires ((dr == 1 || dr == -1) && (dc == 2 || dc == -2)) || ((dr == 2 || dr == -2) && (dc == 1 || dc == -1))
    requires d - loc in KnightOffsetsFor(Col(loc))
    ensures KnightJump(loc, d) <==> !Wraps(Col(loc), d - loc)
  {
    JumpLanding(loc, dr, dc);
    KnightFilter(Col(loc), 8 * dr + dc);
  }

  /** A knight destination is a genuine knight jump exactly when its offset is
      not one of the wrapping ones the column filter misses. */
  lemma KnightJumpUnlessWrap(loc: int, d: int)
    requires 0 <= loc < 64
    requires d in KnightMoves(loc)
    ensures KnightJump(loc, d) <==> !Wraps(Col(loc), d - loc)
  {
    KnightDestinations(loc, d);
    var o := d - loc;
    assert o in KnightOffsets by {
      KnightOffsetsTable(Col(loc));
    }
    if o == -10 { KeptOffsetJump(loc, d, -1, -2); }
    else if o == 6 { KeptOffsetJump(loc, d, 1, -2); }
    else if o == -17 { KeptOffsetJump(loc, d, -2, -1); }
    else if o == 15 { KeptOffsetJump(loc, d, 2, -1); }
    else if o == -15 { KeptOffsetJump(loc, d, -2, 1); }
    else if o == 17 { KeptOffsetJump(loc, d, 2, 1); }
    else if o == -6 { KeptOffsetJump(loc, d, -1, 2); }
    else { KeptOffsetJump(loc, d, 1, 2); }
  }

  /** A square whose offset from the origin is not a knight offset is never
      a knight destination. */
  lemma KnightCannotReach(loc: int, d: int)
    requires d - loc !in KnightOffsets
    ensures d !in KnightMoves(loc)
  {
    KnightOffsetsTable(Col(loc));
    KnightDestinations(loc, d);
  }

  /** From any a-file origin the knight keeps the offsets -17 and 15. They
      wrap to the h-file, three rows down and one row up, so neither lands
      on a knight jump: from a4 (index 24) the knight reaches h1 (7) and
      h5 (39). */
  lemma KnightWrapsFromFileA(loc: int)
    requires 0 <= loc < 64 && Col(loc) == 0
    ensures loc >= 17 ==> && loc - 17 in KnightMoves(loc) && !KnightJump(loc, loc - 17)
                          && Col(loc - 17) == 7 && Row(loc - 17) == Row(loc) - 3
    ensures loc + 15 < 64 ==> && loc + 15 in KnightMoves(loc) && !KnightJump(loc, loc + 15)
                              && Col(loc + 15) == 7 && Row(loc + 15) == Row(loc) + 1
  {
    KnightOffsetsTable(0);
    KnightDestinations(loc, loc - 17);
    KnightDestinations(loc, loc + 15);
    OffsetLanding(loc, -2, -1);
    OffsetLanding(loc, 2, -1);
    JumpLanding(loc, -2, -1);
    JumpLanding(loc, 2, -1);
  }

  /** One king step: another square at most one row and one column away. */
  predicate Adjacent(loc: int, d: int)
  {
    d != loc && -1 <= Row(d) - Row(loc) <= 1 && -1 <= Col(d) - Col(loc) <= 1
  }

  /** One kept king offset `8 * dr + dc` lands on an adjacent square. */
  lemma KeptStep(loc: int, d: int, dr: int, dc: int)
    requires 0 <= loc < 64 && d == loc + 8 * dr + dc
    requires -1 <= dr <= 1 && -1 <= dc <= 1 && (dr != 0 || dc != 0)
    requires d - loc in KingOffsetsFor(Col(loc))
    ensures Adjacent(loc, d)
  {
    KingOffsetsTable(Col(loc));
    OffsetLanding(loc, dr, dc);
  }

  /** Every king destination is adjacent to the origin. */
  lemma KingMovesOnlyAdjacent(loc: int, d: int)
    requires 0 <= loc < 64
    requires d in KingMoves(loc)
    ensures Adjacent(loc, d)
  {
    KingOffsetsTable(Col(loc));
    var o := d - loc;
    assert o in KingOffsetsFor(Col(loc));
    if o == -9 { KeptStep(loc, d, -1, -1); }
    else if o == -1 { KeptStep(loc, d, 0, -1); }
    else if o == 7 { KeptStep(loc, d, 1, -1); }
    else if o == -8 { KeptStep(loc, d, -1, 0); }
    else if o == 8 { KeptStep(loc, d, 1, 0); }
    else if o == -7 { KeptStep(loc, d, -1, 1); }
    else if o == 1 { KeptStep(loc, d, 0, 1); }
    else { KeptStep(loc, d, 1, 1); }
  }

  /** Every adjacent square on the board is a king destination. */
  lemma AdjacentIsKingMove(loc: int, d: int)
    requires 0 <= loc < 64 && 0 <= d < 64
    requires Adjacent(loc, d)
    ensures d in KingMoves(loc)
  {
    var c := Col(loc);
    KingOffsetsTable(c);
    var dr, dc := Row(d) - Row(loc), Col(d) - c;
    assert d == 8 * Row(d) + Col(d);
    assert loc == 8 * Row(loc) + c;
    assert d - loc == 8 * dr + dc;
    assert d - loc in KingOffsetsFor(c);
  }

  /** King destinations are exactly the on-board squares adjacent to the
      origin: its column filter is complete. */
  lemma KingMovesAdjacent(loc: int, d: int)
    requires 0 <= loc < 64
    ensures d in KingMoves(loc) <==> 0 <= d < 64 && Adjacent(loc, d)
  {
    if d in KingMoves(loc) {
      KingMovesOnlyAdjacent(loc, d);
    }
    if 0 <= d < 64 && Adjacent(loc, d) {
      AdjacentIsKingMove(loc, d);
    }
  }

  /** A square more than one row or one column away is never a king
      destination. */
  lemma KingCannotReach(loc: int, d: int)
    requires 0 <= loc < 64
    requires Row(d) - Row(loc) > 1 || Row(loc) - Row(d) > 1 || Col(d) - Col(loc) > 1 || Col(loc) - Col(d) > 1
    ensures d !in KingMoves(loc)
  {
    KingMovesAdjacent(loc, d);
  }

  /** Every generated move is on the board and differs from the origin. */
  lemma GenOnBoard(p: Piece, occ: set<int>, d: int)
    requires 0 <= p.pos < 64
    requires d in Gen(p, occ)
    ensures 0 <= d < 64 && d != p.pos
  {
    match p.kind
    case Rook => RookMovesOnLines(p.pos, occ, d);
    case Bishop => BishopMovesOnDiagonals(p.pos, occ, d);
    case Knight =>
      KnightDestinations(p.pos, d);
    case King => KingMovesAdjacent(p.pos, d);
  }

  /** Squares a piece's pattern can never reach from where it stands:
      off its lines for a rook, off its diagonals for a bishop, not a knight
      offset away for a knight, more than one step away for a king. */
  predicate OutOfReach(p: Piece, d: int)
  {
    var dr, dc := Row(d) - Row(p.pos), Col(d) - Col(p.pos);
    match p.kind
    case Rook => dr != 0 && dc != 0
    case Bishop => dr != dc && dr != -dc
    case Knight => d - p.pos !in KnightOffsets
    case King => dr > 1 || dr < -1 || dc > 1 || dc < -1
  }

  /** No occupancy lets a piece generate a square out of its reach. */
  lemma GenCannotReach(p: Piece, occ: set<int>, d: int)
    requires 0 <= p.pos < 64 && OutOfReach(p, d)
    ensures d !in Gen(p, occ)
  {
    match p.kind
    case Rook => RookCannotReach(p.pos, occ, d);
    case Bishop => BishopCannotReach(p.pos, occ, d);
    case Knight => KnightCannotReach(p.pos, d);
    case King => KingCannotReach(p.pos, d);
  }

  /** The squares a piece's pattern reaches from where it stands, given the
      occupied squares: an adjacent square for a king, a square at a kept
      offset for a knight, and a square on a line or diagonal with nothing
      occupied strictly between for a rook or bishop. */
  ghost predicate Attacks(p: Piece, d: int, occ: set<int>)
  {
    && 0 <= d < 64
    && match p.kind
       case King => Adjacent(p.pos, d)
       case Knight => d - p.pos in KnightOffsetsFor(Col(p.pos))
       case Rook => d != p.pos && OnLine(p.pos, d) && LineClear(p.pos, d, occ)
       case Bishop => d != p.pos && OnDiagonal(p.pos, d) && DiagonalClear(p.pos, d, occ)
  }

  /** A piece's generated list holds exactly the squares its pattern
      reaches. */
  lemma GenExact(p: Piece, occ: set<int>, d: int)
    requires 0 <= p.pos < 64
    ensures d in Gen(p, occ) <==> Attacks(p, d, occ)
  {
    match p.kind
    case King => KingMovesAdjacent(p.pos, d);
    case Knight => KnightDestinations(p.pos, d);
    case Rook =>
      if d in Gen(p, occ) { RookMovesOnLines(p.pos, occ, d); }
      if Attacks(p, d, occ) { RookReaches(p.pos, occ, d); }
    case Bishop =>
      if d in Gen(p, occ) { BishopMovesOnDiagonals(p.pos, occ, d); }
      if Attacks(p, d, occ) { BishopReaches(p.pos, occ, d); }
  }
}
