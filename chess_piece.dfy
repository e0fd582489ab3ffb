/** ChessPiece.pieceMoves: the pseudo-legal moves of one piece (moves that
    ignore whether the mover's own king is left in check). Each generator of
    the source appends to a list; here each is a method that returns the list
    with its moves appended, proved equal to a pure function of the board's
    view, and the rules of movement are proved about those functions. */
module Moves {

  import opened Wrappers
  import opened ChessTypes
  import opened Board

  /** A square a piece of `color` may land on: empty or held by the other colour. */
  predicate CanLand(ps: Pieces, color: TeamColor, p: Pos)
  {
    p !in ps || ps[p].color != color
  }

  function Plain(from: Pos, to: Pos): ChessMove
  {
    ChessMove(from, to, None)
  }

  function Shift(p: Pos, d: (int, int)): Pos
  {
    Pos(p.row + d.0, p.col + d.1)
  }

  // ---------------------------------------------------------------------
  // Fixed offsets: king and knight

  /** The king's offsets in the order of the source's nested delta loops, (0, 0) skipped. */
  const KingOffsets: seq<(int, int)> := [(-1, -1), (-1, 0), (-1, 1), (0, -1), (0, 1), (1, -1), (1, 0), (1, 1)]

  /** The knight's offsets in the source's order. */
  const KnightOffsets: seq<(int, int)> := [(2, 1), (2, -1), (-2, 1), (-2, -1), (1, 2), (1, -2), (-1, 2), (-1, -2)]

  /** One fixed-offset step: kept when on the board and not onto an own piece. */
  function Step(ps: Pieces, color: TeamColor, pos: Pos, d: (int, int)): seq<ChessMove>
  {
    var np := Shift(pos, d);
    if IsValidPosition(np) && CanLand(ps, color, np) then [Plain(pos, np)] else []
  }

  /** The steps for a list of offsets, in list order. */
  function Steps(ps: Pieces, color: TeamColor, pos: Pos, offs: seq<(int, int)>): seq<ChessMove>
  {
    if offs == [] then [] else Steps(ps, color, pos, offs[..|offs| - 1]) + Step(ps, color, pos, offs[|offs| - 1])
  }

  /** One more offset appends its step to a list already holding the earlier ones. */
  lemma StepsSnoc(acc: seq<ChessMove>, ps: Pieces, color: TeamColor, pos: Pos, offs: seq<(int, int)>, k: nat)
    requires k < |offs|
    ensures acc + Steps(ps, color, pos, offs[..k + 1]) == (acc + Steps(ps, color, pos, offs[..k])) + Step(ps, color, pos, offs[k])
  {
    assert offs[..k + 1][..k] == offs[..k];
  }

  /** A fixed-offset move list holds exactly the kept steps, at most one per offset. */
  lemma {:induction false} StepsMembers(ps: Pieces, color: TeamColor, pos: Pos, offs: seq<(int, int)>)
    ensures |Steps(ps, color, pos, offs)| <= |offs|
    ensures forall m: ChessMove :: m in Steps(ps, color, pos, offs) <==>
      exists k :: 0 <= k < |offs| && m == Plain(pos, Shift(pos, offs[k]))
        && IsValidPosition(m.end) && CanLand(ps, color, m.end)
  {
    if offs != [] {
      var init := offs[..|offs| - 1];
      StepsMembers(ps, color, pos, init);
      forall m: ChessMove
        ensures m in Steps(ps, color, pos, offs) <==>
          exists k :: 0 <= k < |offs| && m == Plain(pos, Shift(pos, offs[k]))
            && IsValidPosition(m.end) && CanLand(ps, color, m.end)
      {
        if m in Steps(ps, color, pos, init) {
          var k :| 0 <= k < |init| && m == Plain(pos, Shift(pos, init[k]))
            && IsValidPosition(m.end) && CanLand(ps, color, m.end);
          assert offs[k] == init[k];
        }
        if exists k :: 0 <= k < |offs| && m == Plain(pos, Shift(pos, offs[k]))
            && IsValidPosition(m.end) && CanLand(ps, color, m.end) {
          var k :| 0 <= k < |offs| && m == Plain(pos, Shift(pos, offs[k]))
            && IsValidPosition(m.end) && CanLand(ps, color, m.end);
          if k < |init| {
            assert init[k] == offs[k];
          }
        }
      }
    }
  }

  function KingMoves(ps: Pieces, color: TeamColor, pos: Pos): seq<ChessMove>
  {
    Steps(ps, color, pos, KingOffsets)
  }

  function KnightMoves(ps: Pieces, color: TeamColor, pos: Pos): seq<ChessMove>
  {
    Steps(ps, color, pos, KnightOffsets)
  }

  /** King: at most eight moves, exactly the adjacent on-board squares that
      are empty or hold an enemy, none with a promotion tag. */
  lemma KingMovesExactly(ps: Pieces, color: TeamColor, pos: Pos)
    ensures |KingMoves(ps, color, pos)| <= 8
    ensures forall m: ChessMove :: m in KingMoves(ps, color, pos) <==>
      && m.start == pos && m.promotion == None && m.end != pos
      && -1 <= m.end.row - pos.row <= 1 && -1 <= m.end.col - pos.col <= 1
      && IsValidPosition(m.end) && CanLand(ps, color, m.end)
  {
    StepsMembers(ps, color, pos, KingOffsets);
    forall m: ChessMove | && m.start == pos && m.promotion == None && m.end != pos
               && -1 <= m.end.row - pos.row <= 1 && -1 <= m.end.col - pos.col <= 1
               && IsValidPosition(m.end) && CanLand(ps, color, m.end)
      ensures m in KingMoves(ps, color, pos)
    {
      var d := (m.end.row - pos.row, m.end.col - pos.col);
      var k := if d.0 == -1 then d.1 + 1 else if d.0 == 0 then (if d.1 == -1 then 3 else 4) else d.1 + 6;
      assert KingOffsets[k] == d;
      assert m == Plain(pos, Shift(pos, KingOffsets[k]));
    }
  }

  /** Two rows and one column, or one row and two columns. */
  predicate KnightJump(dr: int, dc: int)
  {
    ((dr == 2 || dr == -2) && (dc == 1 || dc == -1)) || ((dr == 1 || dr == -1) && (dc == 2 || dc == -2))
  }

  /** Knight: at most eight moves, exactly the on-board squares two rows and
      one column (or one row and two columns) away that are empty or hold an
      enemy, none with a promotion tag. */
  lemma KnightMovesExactly(ps: Pieces, color: TeamColor, pos: Pos)
    ensures |KnightMoves(ps, color, pos)| <= 8
    ensures forall m: ChessMove :: m in KnightMoves(ps, color, pos) <==>
      && m.start == pos && m.promotion == None
      && KnightJump(m.end.row - pos.row, m.end.col - pos.col)
      && IsValidPosition(m.end) && CanLand(ps, color, m.end)
  {
    StepsMembers(ps, color, pos, KnightOffsets);
    forall m: ChessMove | && m.start == pos && m.promotion == None
               && KnightJump(m.end.row - pos.row, m.end.col - pos.col)
               && IsValidPosition(m.end) && CanLand(ps, color, m.end)
      ensures m in KnightMoves(ps, color, pos)
    {
      var d := (m.end.row - pos.row, m.end.col - pos.col);
      var k := if d == (2, 1) then 0 else if d == (2, -1) then 1 else if d == (-2, 1) then 2
               else if d == (-2, -1) then 3 else if d == (1, 2) then 4 else if d == (1, -2) then 5
               else if d == (-1, 2) then 6 else 7;
      assert KnightOffsets[k] == d;
      assert m == Plain(pos, Shift(pos, KnightOffsets[k]));
    }
  }

  // ---------------------------------------------------------------------
  // Rays: rook, bishop, queen

  /** The square `i` steps from `pos` in direction `d`. */
  function RayStep(pos: Pos, d: (int, int), i: int): Pos
  {
    Pos(pos.row + d.0 * i, pos.col + d.1 * i)
  }

  /** addMovesInDirection from step i on: empty squares are kept and passed,
      the first occupied square is kept only if it is an enemy, and the ray
      ends there, at the board's edge, or after step 8. */
  function Ray(ps: Pieces, color: TeamColor, pos: Pos, d: (int, int), i: int): seq<ChessMove>
    decreases 9 - i
  {
    if i > 8 then []
    else
      var np := RayStep(pos, d, i);
      if !IsValidPosition(np) then []
      else if np !in ps then [Plain(pos, np)] + Ray(ps, color, pos, d, i + 1)
      else if ps[np].color != color then [Plain(pos, np)]
      else []
  }

  /** The rays for a list of directions, in list order. */
  function Rays(ps: Pieces, color: TeamColor, pos: Pos, dirs: seq<(int, int)>): seq<ChessMove>
  {
    if dirs == [] then [] else Rays(ps, color, pos, dirs[..|dirs| - 1]) + Ray(ps, color, pos, dirs[|dirs| - 1], 1)
  }

  /** One more direction appends its ray to a list already holding the earlier ones. */
  lemma RaysSnoc(acc: seq<ChessMove>, ps: Pieces, color: TeamColor, pos: Pos, dirs: seq<(int, int)>, k: nat)
    requires k < |dirs|
    ensures acc + Rays(ps, color, pos, dirs[..k + 1]) == (acc + Rays(ps, color, pos, dirs[..k])) + Ray(ps, color, pos, dirs[k], 1)
  {
    assert dirs[..k + 1][..k] == dirs[..k];
  }

  /** addRookMove: rows -1 and +1, then columns -1 and +1. */
  const RookDirs: seq<(int, int)> := [(-1, 0), (1, 0), (0, -1), (0, 1)]

  /** addBishopMove: the nested loops over row and column deltas -1, +1. */
  const BishopDirs: seq<(int, int)> := [(-1, -1), (-1, 1), (1, -1), (1, 1)]

  function RookMoves(ps: Pieces, color: TeamColor, pos: Pos): seq<ChessMove>
  {
    Rays(ps, color, pos, RookDirs)
  }

  function BishopMoves(ps: Pieces, color: TeamColor, pos: Pos): seq<ChessMove>
  {
    Rays(ps, color, pos, BishopDirs)
  }

  /** A ray from step i is a run of consecutive squares i, i+1, ... along d,
      all on the board, with no promotion and never onto an own piece; every
      square but the last is empty. */
  lemma {:induction false} RayElements(ps: Pieces, color: TeamColor, pos: Pos, d: (int, int), i: int)
    requires 1 <= i <= 9
    decreases 9 - i
    ensures var r := Ray(ps, color, pos, d, i);
      && |r| <= 9 - i
      && forall k :: 0 <= k < |r| ==>
           && r[k] == Plain(pos, RayStep(pos, d, i + k))
           && IsValidPosition(r[k].end) && CanLand(ps, color, r[k].end)
           && (k < |r| - 1 ==> r[k].end !in ps)
  {
    var np := RayStep(pos, d, i);
    if i <= 8 && IsValidPosition(np) && np !in ps {
      RayElements(ps, color, pos, d, i + 1);
      var rest := Ray(ps, color, pos, d, i + 1);
      var r := Ray(ps, color, pos, d, i);
      assert r == [Plain(pos, np)] + rest;
      forall k | 0 <= k < |r|
        ensures r[k] == Plain(pos, RayStep(pos, d, i + k))
      {
        if k > 0 {
          assert r[k] == rest[k - 1];
          assert i + 1 + (k - 1) == i + k;
        }
      }
    }
  }

  /** A ray ends only at an enemy (its last square), at the board's edge,
      before an own piece, or after step 8. */
  lemma {:induction false} RayStops(ps: Pieces, color: TeamColor, pos: Pos, d: (int, int), i: int)
    requires 1 <= i <= 9
    decreases 9 - i
    ensures var r := Ray(ps, color, pos, d, i);
      (|r| == 0 || r[|r| - 1].end !in ps) && i + |r| <= 8 ==>
        var next := RayStep(pos, d, i + |r|);
        !IsValidPosition(next) || (next in ps && ps[next].color == color)
  {
    var np := RayStep(pos, d, i);
    if i <= 8 && IsValidPosition(np) && np !in ps {
      RayStops(ps, color, pos, d, i + 1);
      var rest := Ray(ps, color, pos, d, i + 1);
      var r := Ray(ps, color, pos, d, i);
      assert r == [Plain(pos, np)] + rest;
      if |rest| > 0 {
        assert r[|r| - 1] == rest[|rest| - 1];
      }
      assert i + 1 + |rest| == i + |r|;
    }
  }

  // ---------------------------------------------------------------------
  // Pawns

  /** The row a pawn moves towards: +1 for WHITE, -1 for BLACK. */
  function Direction(color: TeamColor): int
  {
    if color == BLACK then -1 else 1
  }

  /** The row on which a pawn move is promotion-tagged: 8 for WHITE, 1 for BLACK. */
  function LastRow(color: TeamColor): int
  {
    if color == WHITE then 8 else 1
  }

  /** The row from which the double push is allowed: 2 for WHITE, 7 for BLACK. */
  function HomeRow(color: TeamColor): int
  {
    if color == WHITE then 2 else 7
  }

  /** The four promotion-tagged copies of a move, in the source's order. */
  function Promotions(from: Pos, to: Pos): seq<ChessMove>
  {
    [ChessMove(from, to, Some(QUEEN)), ChessMove(from, to, Some(BISHOP)),
     ChessMove(from, to, Some(ROOK)), ChessMove(from, to, Some(KNIGHT))]
  }

  /** A move onto `to`, promotion-tagged when the square ahead is on the last row. */
  function PawnLanding(color: TeamColor, pos: Pos, to: Pos): seq<ChessMove>
  {
    if pos.row + Direction(color) == LastRow(color) then Promotions(pos, to) else [Plain(pos, to)]
  }

  /** The single push onto an empty on-board square ahead. */
  function PawnPush(ps: Pieces, color: TeamColor, pos: Pos): seq<ChessMove>
  {
    var ahead := Pos(pos.row + Direction(color), pos.col);
    if IsValidPosition(ahead) && ahead !in ps then PawnLanding(color, pos, ahead) else []
  }

  /** The double push from the home row, over and onto empty squares. */
  function PawnDoublePush(ps: Pieces, color: TeamColor, pos: Pos): seq<ChessMove>
  {
    var ahead := Pos(pos.row + Direction(color), pos.col);
    var twoAhead := Pos(pos.row + 2 * Direction(color), pos.col);
    if pos.row == HomeRow(color) && twoAhead !in ps && ahead !in ps then [Plain(pos, twoAhead)] else []
  }

  /** The diagonal capture towards column delta `delta`, onto an on-board enemy. */
  function PawnCapture(ps: Pieces, color: TeamColor, pos: Pos, delta: int): seq<ChessMove>
  {
    var target := Pos(pos.row + Direction(color), pos.col + delta);
    if IsValidPosition(target) && target in ps && ps[target].color != color then PawnLanding(color, pos, target) else []
  }

  function PawnMoves(ps: Pieces, color: TeamColor, pos: Pos): seq<ChessMove>
  {
    PawnPush(ps, color, pos) + PawnDoublePush(ps, color, pos) + PawnCapture(ps, color, pos, -1) + PawnCapture(ps, color, pos, 1)
  }

  /** The shapes a pawn move can have. */
  predicate IsPawnPush(ps: Pieces, color: TeamColor, pos: Pos, e: Pos)
  {
    e == Pos(pos.row + Direction(color), pos.col) && IsValidPosition(e) && e !in ps
  }

  predicate IsPawnDoublePush(ps: Pieces, color: TeamColor, pos: Pos, e: Pos)
  {
    && pos.row == HomeRow(color) && e == Pos(pos.row + 2 * Direction(color), pos.col)
    && e !in ps && Pos(pos.row + Direction(color), pos.col) !in ps
  }

  predicate IsPawnCapture(ps: Pieces, color: TeamColor, pos: Pos, e: Pos)
  {
    && e.row == pos.row + Direction(color) && (e.col == pos.col - 1 || e.col == pos.col + 1)
    && IsValidPosition(e) && e in ps && ps[e].color != color
  }

  predicate IsPromotionType(t: PieceType)
  {
    t == QUEEN || t == BISHOP || t == ROOK || t == KNIGHT
  }

  /** A push or capture onto the last row carries one of the four promotion
      types; any other pawn move carries none. */
  predicate PromotionRule(color: TeamColor, m: ChessMove)
  {
    if m.end.row == LastRow(color) then m.promotion.Some? && IsPromotionType(m.promotion.value)
    else m.promotion == None
  }

  lemma LandingMembers(color: TeamColor, pos: Pos, to: Pos)
    requires to.row == pos.row + Direction(color)
    ensures forall m: ChessMove :: m in PawnLanding(color, pos, to) <==>
      m.start == pos && m.end == to && PromotionRule(color, m)
  {
    if pos.row + Direction(color) == LastRow(color) {
      forall m: ChessMove | m.start == pos && m.end == to && PromotionRule(color, m)
        ensures m in Promotions(pos, to)
      {
        assert m == ChessMove(pos, to, Some(m.promotion.value));
      }
    }
  }

  lemma PushMembers(ps: Pieces, color: TeamColor, pos: Pos)
    ensures forall m: ChessMove :: m in PawnPush(ps, color, pos) <==>
      m.start == pos && IsPawnPush(ps, color, pos, m.end) && PromotionRule(color, m)
  {
    LandingMembers(color, pos, Pos(pos.row + Direction(color), pos.col));
  }

  lemma DoublePushMembers(ps: Pieces, color: TeamColor, pos: Pos)
    ensures forall m: ChessMove :: m in PawnDoublePush(ps, color, pos) <==>
      m.start == pos && IsPawnDoublePush(ps, color, pos, m.end) && PromotionRule(color, m)
  {
  }

  lemma CaptureMembers(ps: Pieces, color: TeamColor, pos: Pos)
    ensures forall m: ChessMove :: m in PawnCapture(ps, color, pos, -1) + PawnCapture(ps, color, pos, 1) <==>
      m.start == pos && IsPawnCapture(ps, color, pos, m.end) && PromotionRule(color, m)
  {
    LandingMembers(color, pos, Pos(pos.row + Direction(color), pos.col - 1));
    LandingMembers(color, pos, Pos(pos.row + Direction(color), pos.col + 1));
  }

  /** Pawn rules: a move is generated iff it is a single push onto an empty
      square ahead, a double push from the home row over and onto empty
      squares, or a diagonal step onto an enemy, and it obeys the promotion
      rule: a push or capture onto the last row comes with each of the four
      promotion tags and any other move has none. */
  lemma PawnMovesExactly(ps: Pieces, color: TeamColor, pos: Pos)
    ensures forall m: ChessMove :: m in PawnMoves(ps, color, pos) <==>
      && m.start == pos
      && (|| IsPawnPush(ps, color, pos, m.end)
          || IsPawnDoublePush(ps, color, pos, m.end)
          || IsPawnCapture(ps, color, pos, m.end))
      && PromotionRule(color, m)
  {
    PushMembers(ps, color, pos);
    DoublePushMembers(ps, color, pos);
    CaptureMembers(ps, color, pos);
    assert PawnMoves(ps, color, pos) == PawnPush(ps, color, pos) + PawnDoublePush(ps, color, pos)
      + (PawnCapture(ps, color, pos, -1) + PawnCapture(ps, color, pos, 1));
  }

  // ---------------------------------------------------------------------
  // pieceMoves

  /** pieceMoves as a function of the board's view: the switch on the type. */
  function PseudoLegalMoves(ps: Pieces, piece: ChessPiece, pos: Pos): seq<ChessMove>
  {
    match piece.pieceType
    case KING => KingMoves(ps, piece.color, pos)
    case QUEEN => RookMoves(ps, piece.color, pos) + BishopMoves(ps, piece.color, pos)
    case ROOK => RookMoves(ps, piece.color, pos)
    case BISHOP => BishopMoves(ps, piece.color, pos)
    case KNIGHT => KnightMoves(ps, piece.color, pos)
    case PAWN => PawnMoves(ps, piece.color, pos)
  }

  // ---------------------------------------------------------------------
  // Properties common to every piece

  /** A ray list holds exactly the moves of the rays of its directions. */
  lemma {:induction false} RaysMembers(ps: Pieces, color: TeamColor, pos: Pos, dirs: seq<(int, int)>)
    ensures forall m :: m in Rays(ps, color, pos, dirs) <==>
      exists k :: 0 <= k < |dirs| && m in Ray(ps, color, pos, dirs[k], 1)
  {
    if dirs != [] {
      var init := dirs[..|dirs| - 1];
      RaysMembers(ps, color, pos, init);
      forall m
        ensures m in Rays(ps, color, pos, dirs) <==> exists k :: 0 <= k < |dirs| && m in Ray(ps, color, pos, dirs[k], 1)
      {
        if m in Rays(ps, color, pos, init) {
          var k :| 0 <= k < |init| && m in Ray(ps, color, pos, init[k], 1);
          assert dirs[k] == init[k];
        } else if m in Ray(ps, color, pos, dirs[|dirs| - 1], 1) {
        } else {
          forall k | 0 <= k < |dirs|
            ensures m !in Ray(ps, color, pos, dirs[k], 1)
          {
            if k < |init| {
              assert dirs[k] == init[k];
            }
          }
        }
      }
    }
  }

  /** The queen's eight directions: the rook's, then the bishop's. */
  const QueenDirs: seq<(int, int)> := RookDirs + BishopDirs

  /** The queen's moves are exactly the squares of its rays in the eight
      directions, and none carries a promotion. */
  lemma QueenMovesExactly(ps: Pieces, color: TeamColor, pos: Pos)
    ensures forall m :: m in PseudoLegalMoves(ps, ChessPiece(color, QUEEN), pos) <==>
      exists k :: 0 <= k < 8 && m in Ray(ps, color, pos, QueenDirs[k], 1)
  {
    RaysMembers(ps, color, pos, RookDirs);
    RaysMembers(ps, color, pos, BishopDirs);
    forall m | exists k :: 0 <= k < 8 && m in Ray(ps, color, pos, QueenDirs[k], 1)
      ensures m in PseudoLegalMoves(ps, ChessPiece(color, QUEEN), pos)
    {
      var k :| 0 <= k < 8 && m in Ray(ps, color, pos, QueenDirs[k], 1);
      if k < 4 {
        assert QueenDirs[k] == RookDirs[k];
      } else {
        assert QueenDirs[k] == BishopDirs[k - 4];
      }
    }
    forall m | m in PseudoLegalMoves(ps, ChessPiece(color, QUEEN), pos)
      ensures exists k :: 0 <= k < 8 && m in Ray(ps, color, pos, QueenDirs[k], 1)
    {
      if m in RookMoves(ps, color, pos) {
        var k :| 0 <= k < 4 && m in Ray(ps, color, pos, RookDirs[k], 1);
        assert QueenDirs[k] == RookDirs[k];
      } else {
        var k :| 0 <= k < 4 && m in Ray(ps, color, pos, BishopDirs[k], 1);
        assert QueenDirs[k + 4] == BishopDirs[k];
      }
    }
  }

  /** A ray in a unit direction other than (0, 0) never returns to its start,
      lands on empty or enemy squares of the board, and carries no promotion. */
  lemma RayMovesShape(ps: Pieces, color: TeamColor, pos: Pos, d: (int, int))
    requires d != (0, 0) && -1 <= d.0 <= 1 && -1 <= d.1 <= 1
    ensures forall m :: m in Ray(ps, color, pos, d, 1) ==>
      && m.start == pos && m.end != pos && m.promotion == None
      && IsValidPosition(m.end) && CanLand(ps, color, m.end)
  {
    RayElements(ps, color, pos, d, 1);
    var r := Ray(ps, color, pos, d, 1);
    forall m | m in r
      ensures m.end != pos
    {
      var k :| 0 <= k < |r| && r[k] == m;
      assert m.end == RayStep(pos, d, 1 + k);
      UnitTimes(d.0, 1 + k);
      UnitTimes(d.1, 1 + k);
    }
  }

  lemma UnitTimes(x: int, j: int)
    requires -1 <= x <= 1 && j >= 1
    ensures x * j == 0 <==> x == 0
  {
    if x == 1 {
      assert x * j == j;
    } else if x == -1 {
      assert x * j == -j;
    }
  }

  lemma RaysMovesShape(ps: Pieces, color: TeamColor, pos: Pos, dirs: seq<(int, int)>)
    requires forall k :: 0 <= k < |dirs| ==> dirs[k] != (0, 0) && -1 <= dirs[k].0 <= 1 && -1 <= dirs[k].1 <= 1
    ensures forall m :: m in Rays(ps, color, pos, dirs) ==>
      && m.start == pos && m.end != pos && m.promotion == None
      && IsValidPosition(m.end) && CanLand(ps, color, m.end)
  {
    RaysMembers(ps, color, pos, dirs);
    forall k | 0 <= k < |dirs|
      ensures forall m :: m in Ray(ps, color, pos, dirs[k], 1) ==>
        && m.start == pos && m.end != pos && m.promotion == None
        && IsValidPosition(m.end) && CanLand(ps, color, m.end)
    {
      RayMovesShape(ps, color, pos, dirs[k]);
    }
  }

  /** Every pseudo-legal move starts on the piece's square, ends elsewhere,
      never lands on a piece of the mover's colour, and stays on the board
      (a pawn's double push only from an on-board square); only pawns carry
      promotion tags, and they follow the promotion rule. */
  lemma MovesShape(ps: Pieces, piece: ChessPiece, pos: Pos)
    ensures forall m :: m in PseudoLegalMoves(ps, piece, pos) ==>
      && m.start == pos && m.end != pos && CanLand(ps, piece.color, m.end)
      && (piece.pieceType != PAWN || IsValidPosition(pos) ==> IsValidPosition(m.end))
      && (if piece.pieceType == PAWN then PromotionRule(piece.color, m) else m.promotion == None)
  {
    var c := piece.color;
    match piece.pieceType {
      case KING => KingMovesExactly(ps, c, pos);
      case KNIGHT =>
        KnightMovesExactly(ps, c, pos);
        forall m | m in KnightMoves(ps, c, pos)
          ensures m.end != pos
        {
          assert KnightJump(m.end.row - pos.row, m.end.col - pos.col);
        }
      case ROOK => RaysMovesShape(ps, c, pos, RookDirs);
      case BISHOP => RaysMovesShape(ps, c, pos, BishopDirs);
      case QUEEN =>
        RaysMovesShape(ps, c, pos, RookDirs);
        RaysMovesShape(ps, c, pos, BishopDirs);
      case PAWN => PawnMovesExactly(ps, c, pos);
    }
  }

  /** Two views with the same occupied squares and the same colours on them. */
  predicate SameColors(ps1: Pieces, ps2: Pieces)
  {
    ps1.Keys == ps2.Keys && forall p :: p in ps1 ==> ps1[p].color == ps2[p].color
  }

  lemma {:induction false} RayColors(ps1: Pieces, ps2: Pieces, color: TeamColor, pos: Pos, d: (int, int), i: int)
    requires SameColors(ps1, ps2)
    decreases 9 - i
    ensures Ray(ps1, color, pos, d, i) == Ray(ps2, color, pos, d, i)
  {
    if i <= 8 {
      RayColors(ps1, ps2, color, pos, d, i + 1);
      var np := RayStep(pos, d, i);
      assert np in ps1 <==> np in ps2;
    }
  }

  lemma {:induction false} RaysColors(ps1: Pieces, ps2: Pieces, color: TeamColor, pos: Pos, dirs: seq<(int, int)>)
    requires SameColors(ps1, ps2)
    ensures Rays(ps1, color, pos, dirs) == Rays(ps2, color, pos, dirs)
  {
    if dirs != [] {
      RaysColors(ps1, ps2, color, pos, dirs[..|dirs| - 1]);
      RayColors(ps1, ps2, color, pos, dirs[|dirs| - 1], 1);
    }
  }

  lemma {:induction false} StepsColors(ps1: Pieces, ps2: Pieces, color: TeamColor, pos: Pos, offs: seq<(int, int)>)
    requires SameColors(ps1, ps2)
    ensures Steps(ps1, color, pos, offs) == Steps(ps2, color, pos, offs)
  {
    if offs != [] {
      StepsColors(ps1, ps2, color, pos, offs[..|offs| - 1]);
      var np := Shift(pos, offs[|offs| - 1]);
      assert np in ps1 <==> np in ps2;
    }
  }

  /** Move generation looks only at which squares are occupied and by which
      colour, never at the types of the pieces standing there. */
  lemma MovesDependOnColorsOnly(ps1: Pieces, ps2: Pieces, piece: ChessPiece, pos: Pos)
    requires SameColors(ps1, ps2)
    ensures PseudoLegalMoves(ps1, piece, pos) == PseudoLegalMoves(ps2, piece, pos)
  {
    var c := piece.color;
    match piece.pieceType {
      case KING => StepsColors(ps1, ps2, c, pos, KingOffsets);
      case KNIGHT => StepsColors(ps1, ps2, c, pos, KnightOffsets);
      case ROOK => RaysColors(ps1, ps2, c, pos, RookDirs);
      case BISHOP => RaysColors(ps1, ps2, c, pos, BishopDirs);
      case QUEEN =>
        RaysColors(ps1, ps2, c, pos, RookDirs);
        RaysColors(ps1, ps2, c, pos, BishopDirs);
      case PAWN =>
        var dir := Direction(c);
        assert Pos(pos.row + dir, pos.col) in ps1 <==> Pos(pos.row + dir, pos.col) in ps2;
        assert Pos(pos.row + 2 * dir, pos.col) in ps1 <==> Pos(pos.row + 2 * dir, pos.col) in ps2;
        assert Pos(pos.row + dir, pos.col - 1) in ps1 <==> Pos(pos.row + dir, pos.col - 1) in ps2;
        assert Pos(pos.row + dir, pos.col + 1) in ps1 <==> Pos(pos.row + dir, pos.col + 1) in ps2;
    }
  }

  // ---------------------------------------------------------------------
  // The imperative generators

  /** addKingMove: nested loops over the deltas -1, 0, 1, skipping (0, 0). */
  method AddKingMove(piece: ChessPiece, board: ChessBoard, myPosition: Pos, validMoves: seq<ChessMove>)
    returns (r: seq<ChessMove>)
    ensures r == validMoves + KingMoves(board.Pieces(), piece.color, myPosition)
  {
    var ps := board.Pieces();
    var deltas := [-1, 0, 1];
    r := validMoves;
    ghost var k := 0;
    for i := 0 to 3
      invariant k == KingDone(3 * i)
      invariant r == validMoves + Steps(ps, piece.color, myPosition, KingOffsets[..k])
    {
      for j := 0 to 3
        invariant k == KingDone(3 * i + j)
        invariant r == validMoves + Steps(ps, piece.color, myPosition, KingOffsets[..k])
      {
        var rowDelta, colDelta := deltas[i], deltas[j];
        KingCell(i, j);
        if rowDelta == 0 && colDelta == 0 {
          continue;
        }
        StepsSnoc(validMoves, ps, piece.color, myPosition, KingOffsets, k);
        ghost var before := r;
        var newPosition := Pos(myPosition.row + rowDelta, myPosition.col + colDelta);
        assert newPosition == Shift(myPosition, KingOffsets[k]);
        if IsValidPosition(newPosition) {
          var pieceAtNewPosition := board.GetPiece(newPosition);
          if pieceAtNewPosition == None || pieceAtNewPosition.value.color != piece.color {
            r := r + [ChessMove(myPosition, newPosition, None)];
          }
        }
        assert r == before + Step(ps, piece.color, myPosition, KingOffsets[k]);
        k := k + 1;
      }
    }
    assert KingOffsets[..k] == KingOffsets;
  }

  /** Cell (i, j) of the delta grid is the centre iff both deltas are 0;
      any other cell is offset KingDone(3 * i + j) of KingOffsets. */
  lemma KingCell(i: int, j: int)
    requires 0 <= i < 3 && 0 <= j < 3
    ensures ([-1, 0, 1][i] == 0 && [-1, 0, 1][j] == 0) <==> (i == 1 && j == 1)
    ensures (i == 1 && j == 1) ==> KingDone(3 * i + j + 1) == KingDone(3 * i + j)
    ensures !(i == 1 && j == 1) ==>
      && KingDone(3 * i + j) < 8 && KingDone(3 * i + j + 1) == KingDone(3 * i + j) + 1
      && KingOffsets[KingDone(3 * i + j)] == ([-1, 0, 1][i], [-1, 0, 1][j])
  {
  }

  /** How many of KingOffsets the first `n` cells of the 3x3 delta grid cover. */
  function KingDone(n: int): nat
    requires 0 <= n <= 9
  {
    if n > 4 then n - 1 else n
  }

  /** addRookMove: the row directions, then the column directions. */
  method AddRookMove(piece: ChessPiece, board: ChessBoard, myPosition: Pos, validMoves: seq<ChessMove>)
    returns (r: seq<ChessMove>)
    ensures r == validMoves + RookMoves(board.Pieces(), piece.color, myPosition)
  {
    var ps := board.Pieces();
    var rowDeltas := [-1, 1];
    var colDeltas := [-1, 1];
    r := validMoves;
    for k := 0 to 2
      invariant r == validMoves + Rays(ps, piece.color, myPosition, RookDirs[..k])
    {
      RaysSnoc(validMoves, ps, piece.color, myPosition, RookDirs, k);
      assert RookDirs[k] == (rowDeltas[k], 0);
      r := AddMovesInDirection(piece, board, myPosition, r, rowDeltas[k], 0);
      assert board.Pieces() == ps;
    }
    for k := 0 to 2
      invariant r == validMoves + Rays(ps, piece.color, myPosition, RookDirs[..2 + k])
    {
      RaysSnoc(validMoves, ps, piece.color, myPosition, RookDirs, 2 + k);
      assert RookDirs[2 + k] == (0, colDeltas[k]);
      r := AddMovesInDirection(piece, board, myPosition, r, 0, colDeltas[k]);
      assert board.Pieces() == ps;
    }
    assert RookDirs[..4] == RookDirs;
  }

  /** addBishopMove: nested loops over the row and column deltas -1, +1. */
  method AddBishopMove(piece: ChessPiece, board: ChessBoard, myPosition: Pos, validMoves: seq<ChessMove>)
    returns (r: seq<ChessMove>)
    ensures r == validMoves + BishopMoves(board.Pieces(), piece.color, myPosition)
  {
    var ps := board.Pieces();
    var deltas := [-1, 1];
    r := validMoves;
    for i := 0 to 2
      invariant r == validMoves + Rays(ps, piece.color, myPosition, BishopDirs[..2 * i])
    {
      for j := 0 to 2
        invariant r == validMoves + Rays(ps, piece.color, myPosition, BishopDirs[..2 * i + j])
      {
        RaysSnoc(validMoves, ps, piece.color, myPosition, BishopDirs, 2 * i + j);
        assert BishopDirs[2 * i + j] == (deltas[i], deltas[j]);
        r := AddMovesInDirection(piece, board, myPosition, r, deltas[i], deltas[j]);
        assert board.Pieces() == ps;
      }
    }
    assert BishopDirs[..4] == BishopDirs;
  }

  /** addKnightMove: one pass over the eight offsets. */
  method AddKnightMove(piece: ChessPiece, board: ChessBoard, myPosition: Pos, validMoves: seq<ChessMove>)
    returns (r: seq<ChessMove>)
    ensures r == validMoves + KnightMoves(board.Pieces(), piece.color, myPosition)
  {
    var ps := board.Pieces();
    var knightMoves := KnightOffsets;
    r := validMoves;
    for k := 0 to 8
      invariant r == validMoves + Steps(ps, piece.color, myPosition, KnightOffsets[..k])
    {
      StepsSnoc(validMoves, ps, piece.color, myPosition, KnightOffsets, k);
      var movement := knightMoves[k];
      var newPosition := Pos(myPosition.row + movement.0, myPosition.col + movement.1);
      if IsValidPosition(newPosition) {
        var pieceAtNewPosition := board.GetPiece(newPosition);
        if pieceAtNewPosition == None || pieceAtNewPosition.value.color != piece.color {
          r := r + [ChessMove(myPosition, newPosition, None)];
        }
      }
    }
    assert KnightOffsets[..8] == KnightOffsets;
  }

  /** addPawnMove: single push, double push from the home row, then the two diagonals. */
  method AddPawnMove(piece: ChessPiece, board: ChessBoard, myPosition: Pos, validMoves: seq<ChessMove>)
    returns (r: seq<ChessMove>)
    ensures r == validMoves + PawnMoves(board.Pieces(), piece.color, myPosition)
  {
    var ps := board.Pieces();
    var color := piece.color;
    var direction := if color == BLACK then -1 else 1;
    var lastRow := if color == WHITE then 8 else 1;
    assert direction == Direction(color) && lastRow == LastRow(color);
    r := validMoves;
    var normalMovement := Pos(myPosition.row + direction, myPosition.col);
    if IsValidPosition(normalMovement) && board.GetPiece(normalMovement) == None {
      if normalMovement.row == lastRow {
        r := r + Promotions(myPosition, normalMovement);
      } else {
        r := r + [ChessMove(myPosition, normalMovement, None)];
      }
    }
    assert r == validMoves + PawnPush(ps, color, myPosition);
    ghost var afterPush := r;
    if (color == BLACK && myPosition.row == 7) || (color == WHITE && myPosition.row == 2) {
      var firstMovement := Pos(myPosition.row + 2 * direction, myPosition.col);
      if board.GetPiece(firstMovement) == None && board.GetPiece(normalMovement) == None {
        r := r + [ChessMove(myPosition, firstMovement, None)];
      }
    }
    assert r == afterPush + PawnDoublePush(ps, color, myPosition);
    ghost var afterDouble := r;
    var captureDeltas := [-1, 1];
    for k := 0 to 2
      invariant k == 0 ==> r == afterDouble
      invariant k == 1 ==> r == afterDouble + PawnCapture(ps, color, myPosition, -1)
      invariant k == 2 ==> r == afterDouble + PawnCapture(ps, color, myPosition, -1) + PawnCapture(ps, color, myPosition, 1)
    {
      var delta := captureDeltas[k];
      ghost var before := r;
      var capturePosition := Pos(myPosition.row + direction, myPosition.col + delta);
      if IsValidPosition(capturePosition) {
        var pieceAtNewPosition := board.GetPiece(capturePosition);
        assert pieceAtNewPosition != None <==> capturePosition in ps;
        if pieceAtNewPosition != None && pieceAtNewPosition.value.color != color {
          if normalMovement.row == lastRow {
            r := r + Promotions(myPosition, capturePosition);
          } else {
            r := r + [ChessMove(myPosition, capturePosition, None)];
          }
        }
      }
      assert r == before + PawnCapture(ps, color, myPosition, delta);
    }
    PawnMovesAfter(validMoves, ps, color, myPosition);
  }

  /** The pawn's list appended to `acc`, section by section. */
  lemma PawnMovesAfter(acc: seq<ChessMove>, ps: Pieces, color: TeamColor, pos: Pos)
    ensures acc + PawnMoves(ps, color, pos) ==
      acc + PawnPush(ps, color, pos) + PawnDoublePush(ps, color, pos) + PawnCapture(ps, color, pos, -1) + PawnCapture(ps, color, pos, 1)
  {
  }

  /** addMovesInDirection: steps 1..8 along (rowDelta, colDelta), breaking
      at the edge or at the first occupied square. */
  method AddMovesInDirection(piece: ChessPiece, board: ChessBoard, myPosition: Pos, validMoves: seq<ChessMove>,
                             rowDelta: int, colDelta: int)
    returns (r: seq<ChessMove>)
    ensures r == validMoves + Ray(board.Pieces(), piece.color, myPosition, (rowDelta, colDelta), 1)
  {
    var ps := board.Pieces();
    var d := (rowDelta, colDelta);
    r := validMoves;
    for i := 1 to 9
      invariant r + Ray(ps, piece.color, myPosition, d, i) == validMoves + Ray(ps, piece.color, myPosition, d, 1)
    {
      var newPosition := Pos(myPosition.row + rowDelta * i, myPosition.col + colDelta * i);
      assert newPosition == RayStep(myPosition, d, i);
      if IsValidPosition(newPosition) {
        var pieceAtNewPosition := board.GetPiece(newPosition);
        if pieceAtNewPosition == None {
          r := r + [ChessMove(myPosition, newPosition, None)];
        } else if pieceAtNewPosition.value.color != piece.color {
          r := r + [ChessMove(myPosition, newPosition, None)];
          break;
        } else {
          break;
        }
      } else {
        break;
      }
    }
  }

  /** pieceMoves: the switch on the piece type. */
  method PieceMoves(piece: ChessPiece, board: ChessBoard, myPosition: Pos) returns (validMoves: seq<ChessMove>)
    ensures validMoves == PseudoLegalMoves(board.Pieces(), piece, myPosition)
  {
    ghost var ps := board.Pieces();
    validMoves := [];
    match piece.pieceType {
      case KING =>
        validMoves := AddKingMove(piece, board, myPosition, validMoves);
      case QUEEN =>
        validMoves := AddRookMove(piece, board, myPosition, validMoves);
        assert validMoves == RookMoves(ps, piece.color, myPosition);
        validMoves := AddBishopMove(piece, board, myPosition, validMoves);
      case ROOK =>
        validMoves := AddRookMove(piece, board, myPosition, validMoves);
      case BISHOP =>
        validMoves := AddBishopMove(piece, board, myPosition, validMoves);
      case KNIGHT =>
        validMoves := AddKnightMove(piece, board, myPosition, validMoves);
      case PAWN =>
        validMoves := AddPawnMove(piece, board, myPosition, validMoves);
    }
    assert board.Pieces() == ps;
  }
}
