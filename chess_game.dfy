/** ChessGame: the board, the side to move and the game-over flag, with the
    legality filter, check, checkmate and stalemate. The rules are stated as
    functions of the board's view; the class's methods simulate and revert
    moves on the mutable board as the source does, and are proved to compute
    those functions and to leave the view as they found it. */
module Game {

  import opened Wrappers
  import opened ChessTypes
  import opened Board
  import opened Moves

  // ---------------------------------------------------------------------
  // Check

  predicate IsKingOf(ps: Pieces, c: TeamColor, p: Pos)
  {
    p in ps && ps[p] == ChessPiece(c, KING)
  }

  /** The king isInCheck settles on: the first king of colour `c` in row-major order. */
  ghost predicate IsFirstKing(ps: Pieces, c: TeamColor, k: Pos)
  {
    IsKingOf(ps, c, k) && forall q :: IsKingOf(ps, c, q) ==> PosLe(k, q)
  }

  predicate EndsOn(moves: seq<ChessMove>, target: Pos)
  {
    exists i :: 0 <= i < |moves| && moves[i].end == target
  }

  /** Some piece of colour `side` has a pseudo-legal move ending on `target`. */
  predicate Attacked(ps: Pieces, side: TeamColor, target: Pos)
  {
    exists q :: q in ps && ps[q].color == side && EndsOn(PseudoLegalMoves(ps, ps[q], q), target)
  }

  /** isInCheck: the king of `c` that the search finds is attacked by the opponent. */
  ghost predicate InCheck(ps: Pieces, c: TeamColor)
  {
    exists k :: IsFirstKing(ps, c, k) && Attacked(ps, Opponent(c), k)
  }

  lemma FirstKingUnique(ps: Pieces, c: TeamColor, k1: Pos, k2: Pos)
    requires IsFirstKing(ps, c, k1) && IsFirstKing(ps, c, k2)
    ensures k1 == k2
  {
    assert PosLe(k1, k2) && PosLe(k2, k1);
  }

  /** With a single king of colour `c`, `c` is in check iff some opponent
      piece has a pseudo-legal move ending on that king's square. */
  lemma InCheckWithOneKing(ps: Pieces, c: TeamColor, k: Pos)
    requires IsKingOf(ps, c, k)
    requires forall q :: IsKingOf(ps, c, q) ==> q == k
    ensures InCheck(ps, c) <==> Attacked(ps, Opponent(c), k)
  {
    assert IsFirstKing(ps, c, k);
    if InCheck(ps, c) {
      var k' :| IsFirstKing(ps, c, k') && Attacked(ps, Opponent(c), k');
      FirstKingUnique(ps, c, k, k');
    }
  }

  /** A side without a king is never in check. */
  lemma NoKingNoCheck(ps: Pieces, c: TeamColor)
    requires forall q :: !IsKingOf(ps, c, q)
    ensures !InCheck(ps, c)
  {
  }

  /** Check looks at the kings of `c`, at the opponent's pieces, and
      otherwise only at which squares are occupied by which colour. */
  lemma InCheckDependsOn(ps1: Pieces, ps2: Pieces, c: TeamColor)
    requires SameColors(ps1, ps2)
    requires forall q :: IsKingOf(ps1, c, q) <==> IsKingOf(ps2, c, q)
    requires forall q :: q in ps1 && ps1[q].color != c ==> ps2[q] == ps1[q]
    ensures InCheck(ps1, c) <==> InCheck(ps2, c)
  {
    forall k | IsFirstKing(ps1, c, k)
      ensures Attacked(ps1, Opponent(c), k) <==> Attacked(ps2, Opponent(c), k)
    {
      forall q | q in ps1 && ps1[q].color == Opponent(c)
        ensures PseudoLegalMoves(ps1, ps1[q], q) == PseudoLegalMoves(ps2, ps2[q], q)
      {
        MovesDependOnColorsOnly(ps1, ps2, ps1[q], q);
      }
    }
    assert forall k :: IsFirstKing(ps1, c, k) <==> IsFirstKing(ps2, c, k);
  }

  // ---------------------------------------------------------------------
  // The legality filter

  /** The view after a candidate move is applied: start emptied, piece placed at end. */
  function Simulate(ps: Pieces, start: Pos, end: Pos, piece: ChessPiece): Pieces
  {
    (ps - {start})[end := piece]
  }

  /** validMoves' loop: keep the candidates that leave the mover's side out of check. */
  ghost function LegalFilter(ps: Pieces, start: Pos, piece: ChessPiece, moves: seq<ChessMove>): seq<ChessMove>
  {
    if moves == [] then []
    else
      var last := moves[|moves| - 1];
      LegalFilter(ps, start, piece, moves[..|moves| - 1])
        + (if !InCheck(Simulate(ps, start, last.end, piece), piece.color) then [last] else [])
  }

  lemma {:induction false} LegalFilterMembers(ps: Pieces, start: Pos, piece: ChessPiece, moves: seq<ChessMove>)
    ensures |LegalFilter(ps, start, piece, moves)| <= |moves|
    ensures forall m :: m in LegalFilter(ps, start, piece, moves) <==>
      m in moves && !InCheck(Simulate(ps, start, m.end, piece), piece.color)
  {
    if moves != [] {
      var init := moves[..|moves| - 1];
      LegalFilterMembers(ps, start, piece, init);
      assert moves == init + [moves[|moves| - 1]];
    }
  }

  lemma LegalFilterSnoc(acc: seq<ChessMove>, ps: Pieces, start: Pos, piece: ChessPiece, moves: seq<ChessMove>, k: nat)
    requires k < |moves|
    ensures LegalFilter(ps, start, piece, moves[..k + 1]) ==
      LegalFilter(ps, start, piece, moves[..k])
        + (if !InCheck(Simulate(ps, start, moves[k].end, piece), piece.color) then [moves[k]] else [])
  {
    assert moves[..k + 1][..k] == moves[..k];
  }

  /** The legal moves of the piece on `start`. */
  ghost function LegalMoves(ps: Pieces, start: Pos): seq<ChessMove>
    requires start in ps
  {
    LegalFilter(ps, start, ps[start], PseudoLegalMoves(ps, ps[start], start))
  }

  /** validMoves: None (null) for an empty square, else the legal moves. */
  ghost function ValidMovesSpec(ps: Pieces, start: Pos): Option<seq<ChessMove>>
  {
    if start !in ps then None else Some(LegalMoves(ps, start))
  }

  /** validMoves is null exactly on an empty square; otherwise it holds exactly
      the pseudo-legal moves after which the mover's side is not in check. */
  lemma ValidMovesExactly(ps: Pieces, start: Pos)
    ensures ValidMovesSpec(ps, start).None? <==> start !in ps
    ensures start in ps ==> forall m :: m in ValidMovesSpec(ps, start).value <==>
      m in PseudoLegalMoves(ps, ps[start], start) && !InCheck(Simulate(ps, start, m.end, ps[start]), ps[start].color)
  {
    if start in ps {
      LegalFilterMembers(ps, start, ps[start], PseudoLegalMoves(ps, ps[start], start));
    }
  }

  /** Legal moves keep the shape of pseudo-legal ones: they start on `start`,
      end elsewhere, and never land on a piece of the mover's colour. */
  lemma LegalMovesShape(ps: Pieces, start: Pos)
    requires start in ps
    ensures forall m :: m in LegalMoves(ps, start) ==>
      && m in PseudoLegalMoves(ps, ps[start], start)
      && m.start == start && m.end != start && CanLand(ps, ps[start].color, m.end)
      && (if ps[start].pieceType == PAWN then PromotionRule(ps[start].color, m) else m.promotion == None)
  {
    ValidMovesExactly(ps, start);
    MovesShape(ps, ps[start], start);
  }

  // ---------------------------------------------------------------------
  // makeMove

  /** The view after makeMove: the piece moved from start to end, a pawn
      reaching row 1 or 8 replaced by the promotion type named in the move. */
  function AfterMove(ps: Pieces, move: ChessMove): Pieces
    requires move.start in ps
  {
    var piece := ps[move.start];
    var moved := ps[move.end := piece] - {move.start};
    if piece.pieceType == PAWN && (move.end.row == 1 || move.end.row == 8) && move.promotion.Some?
    then moved[move.end := ChessPiece(piece.color, move.promotion.value)]
    else moved
  }

  /** makeMove's result: its four exceptions, in the order it checks them. */
  ghost function MoveOutcome(ps: Pieces, turn: TeamColor, move: ChessMove): Outcome<string>
  {
    if move.start !in ps then Fail("No piece at the starting position")
    else if ps[move.start].color != turn then Fail("It's not your turn")
    else if move !in LegalMoves(ps, move.start) then Fail("Invalid move")
    else if InCheck(AfterMove(ps, move), turn) then Fail("Move results in Check")
    else Pass
  }

  /** The board after a legal move differs from the simulated one at most in
      the type of the piece on the end square, and never in its kings. */
  lemma AfterMoveIsSimulation(ps: Pieces, move: ChessMove)
    requires move.start in ps && move in LegalMoves(ps, move.start)
    ensures var piece := ps[move.start];
      var after := AfterMove(ps, move);
      var sim := Simulate(ps, move.start, move.end, piece);
      && SameColors(after, sim)
      && (forall q :: IsKingOf(after, piece.color, q) <==> IsKingOf(sim, piece.color, q))
      && (forall q :: q in after && after[q].color != piece.color ==> sim[q] == after[q])
  {
    var piece := ps[move.start];
    LegalMovesShape(ps, move.start);
    var after := AfterMove(ps, move);
    var sim := Simulate(ps, move.start, move.end, piece);
    assert after.Keys == sim.Keys;
    if piece.pieceType == PAWN && (move.end.row == 1 || move.end.row == 8) && move.promotion.Some? {
      assert PromotionRule(piece.color, move);
      assert IsPromotionType(move.promotion.value);
    }
  }

  /** The defensive "Move results in Check" rollback of makeMove is never
      taken: a move that passed the filter was already simulated, and check
      does not depend on the type the pawn promotes to. */
  lemma MoveNeverResultsInCheck(ps: Pieces, turn: TeamColor, move: ChessMove)
    ensures MoveOutcome(ps, turn, move) != Fail("Move results in Check")
  {
    if move.start in ps && ps[move.start].color == turn && move in LegalMoves(ps, move.start) {
      var piece := ps[move.start];
      AfterMoveIsSimulation(ps, move);
      InCheckDependsOn(AfterMove(ps, move), Simulate(ps, move.start, move.end, piece), turn);
      ValidMovesExactly(ps, move.start);
    }
  }

  /** A successful move empties the start square, puts the piece on the end
      square (a pawn reaching its last row as the promotion type the move
      names, which is always one of the four), leaves every other square
      alone, and leaves the side that moved out of check. */
  lemma SuccessfulMove(ps: Pieces, turn: TeamColor, move: ChessMove)
    requires MoveOutcome(ps, turn, move) == Pass
    ensures move.start !in AfterMove(ps, move)
    ensures var piece := ps[move.start];
      if piece.pieceType == PAWN && move.end.row == LastRow(piece.color) then
        && move.promotion.Some? && IsPromotionType(move.promotion.value)
        && Get(AfterMove(ps, move), move.end) == Some(ChessPiece(piece.color, move.promotion.value))
      else Get(AfterMove(ps, move), move.end) == Some(piece)
    ensures forall q :: q != move.start && q != move.end ==> Get(AfterMove(ps, move), q) == Get(ps, q)
    ensures !InCheck(AfterMove(ps, move), turn)
  {
    LegalMovesShape(ps, move.start);
  }

  // ---------------------------------------------------------------------
  // Checkmate and stalemate

  /** No piece of colour `c` has a legal move. */
  ghost predicate NoLegalMoves(ps: Pieces, c: TeamColor)
  {
    forall p :: p in ps && ps[p].color == c ==> LegalMoves(ps, p) == []
  }

  /** The view isInCheckmate tests: the piece put on `end` first, then `start` emptied. */
  function Replay(ps: Pieces, start: Pos, end: Pos, piece: ChessPiece): Pieces
  {
    ps[end := piece] - {start}
  }

  /** What isInCheckmate's loops establish before answering true: every legal
      move of every piece of `c`, replayed end square first, leaves `c` in check. */
  ghost predicate NoEscape(ps: Pieces, c: TeamColor)
  {
    forall p :: p in ps && ps[p].color == c ==> Trapped(ps, c, p)
  }

  /** Every legal move of the piece on `p`, replayed, leaves `c` in check. */
  ghost predicate Trapped(ps: Pieces, c: TeamColor, p: Pos)
    requires p in ps
  {
    forall m :: m in LegalMoves(ps, p) ==> InCheck(Replay(ps, p, m.end, ps[p]), c)
  }

  /** Some move of `moves`, replayed, leaves `c` out of check. */
  ghost predicate AnyEscape(ps: Pieces, c: TeamColor, start: Pos, piece: ChessPiece, moves: seq<ChessMove>)
  {
    moves != [] &&
      (AnyEscape(ps, c, start, piece, moves[..|moves| - 1]) ||
       !InCheck(Replay(ps, start, moves[|moves| - 1].end, piece), c))
  }

  lemma AnyEscapeSnoc(ps: Pieces, c: TeamColor, start: Pos, piece: ChessPiece, moves: seq<ChessMove>, k: nat)
    requires k < |moves|
    ensures AnyEscape(ps, c, start, piece, moves[..k + 1]) <==>
      AnyEscape(ps, c, start, piece, moves[..k]) || !InCheck(Replay(ps, start, moves[k].end, piece), c)
  {
    assert moves[..k + 1][..k] == moves[..k];
  }

  lemma {:induction false} AnyEscapeMembers(ps: Pieces, c: TeamColor, start: Pos, piece: ChessPiece, moves: seq<ChessMove>)
    ensures AnyEscape(ps, c, start, piece, moves) <==>
      exists m :: m in moves && !InCheck(Replay(ps, start, m.end, piece), c)
  {
    if moves != [] {
      var init := moves[..|moves| - 1];
      AnyEscapeMembers(ps, c, start, piece, init);
      assert moves == init + [moves[|moves| - 1]];
    }
  }

  lemma AnyEscapePrefix(ps: Pieces, c: TeamColor, start: Pos, piece: ChessPiece, moves: seq<ChessMove>, k: nat)
    requires k <= |moves| && AnyEscape(ps, c, start, piece, moves[..k])
    ensures AnyEscape(ps, c, start, piece, moves)
  {
    AnyEscapeMembers(ps, c, start, piece, moves[..k]);
    AnyEscapeMembers(ps, c, start, piece, moves);
    var m :| m in moves[..k] && !InCheck(Replay(ps, start, m.end, piece), c);
    assert m in moves;
  }

  ghost predicate Checkmate(ps: Pieces, c: TeamColor)
  {
    InCheck(ps, c) && NoEscape(ps, c)
  }

  ghost predicate Stalemate(ps: Pieces, c: TeamColor)
  {
    !InCheck(ps, c) && NoLegalMoves(ps, c)
  }

  /** Checkmate is check with no legal move at all, stalemate is no legal
      move without check, and no position is both. */
  lemma CheckmateMeans(ps: Pieces, c: TeamColor)
    ensures Checkmate(ps, c) <==> InCheck(ps, c) && NoLegalMoves(ps, c)
    ensures Stalemate(ps, c) ==> !InCheck(ps, c)
    ensures !(Checkmate(ps, c) && Stalemate(ps, c))
  {
    forall p | p in ps && ps[p].color == c
      ensures NoEscape(ps, c) ==> LegalMoves(ps, p) == []
    {
      if LegalMoves(ps, p) != [] {
        EscapeExists(ps, p);
      }
    }
  }

  /** A piece with a legal move has one that isInCheckmate's replay finds leaves its side out of check. */
  lemma EscapeExists(ps: Pieces, p: Pos)
    requires p in ps && LegalMoves(ps, p) != []
    ensures exists m :: m in LegalMoves(ps, p) && !InCheck(Replay(ps, p, m.end, ps[p]), ps[p].color)
  {
    var m := LegalMoves(ps, p)[0];
    LegalMovesShape(ps, p);
    ValidMovesExactly(ps, p);
    assert Replay(ps, p, m.end, ps[p]) == Simulate(ps, p, m.end, ps[p]);
  }

  /** isGameOver: the flag, or a checkmate or stalemate of either side. */
  ghost predicate GameOver(flag: bool, ps: Pieces)
  {
    flag || Checkmate(ps, WHITE) || Checkmate(ps, BLACK) || Stalemate(ps, WHITE) || Stalemate(ps, BLACK)
  }

  // ---------------------------------------------------------------------
  // Simulate and revert on the raw map

  /** Old keys keep their values; keys that were added hold null. */
  predicate NullExtension(sq0: Squares, sq1: Squares)
  {
    && (forall p :: p in sq0 ==> p in sq1 && sq1[p] == sq0[p])
    && (forall p :: p in sq1 && p !in sq0 ==> sq1[p] == None)
  }

  lemma NullExtensionTrans(sq0: Squares, sq1: Squares, sq2: Squares)
    requires NullExtension(sq0, sq1) && NullExtension(sq1, sq2)
    ensures NullExtension(sq0, sq2)
  {
  }

  /** The raw map left behind when a piece simulated on `end` is taken back:
      unchanged, except that an absent end square is now a key mapped to null. */
  function Reverted(sq: Squares, end: Pos): Squares
  {
    if end in sq then sq else sq[end := None]
  }

  lemma RevertedIsNullExtension(sq: Squares, end: Pos)
    ensures NullExtension(sq, Reverted(sq, end))
    ensures Normalize(Reverted(sq, end)) == Normalize(sq)
  {
  }

  /** Both simulate/revert orders of the source restore the raw map up to a null entry at `end`. */
  lemma RevertSquares(sq: Squares, start: Pos, end: Pos, piece: ChessPiece)
    requires start != end && start in sq && sq[start] == Some(piece)
    ensures var captured := Get(Normalize(sq), end);
      && sq[start := None][end := Some(piece)][start := Some(piece)][end := captured] == Reverted(sq, end)
      && sq[end := Some(piece)][start := None][start := Some(piece)][end := captured] == Reverted(sq, end)
  {
  }

  /** makeMove's rollback: whatever the move did to the start and end squares,
      putting back the piece and the captured value restores the raw map up to
      a null entry at `end`. */
  lemma RollbackSquares(sq: Squares, moved: Squares, start: Pos, end: Pos, piece: ChessPiece)
    requires start != end && start in sq && sq[start] == Some(piece)
    requires forall q :: q != start && q != end ==> (q in moved <==> q in sq)
    requires forall q :: q != start && q != end && q in moved ==> moved[q] == sq[q]
    ensures moved[start := Some(piece)][end := Get(Normalize(sq), end)] == Reverted(sq, end)
  {
  }

  // ---------------------------------------------------------------------
  // The game

  class ChessGame {
    var board: ChessBoard
    var turnTeam: TeamColor
    var gameOver: bool

    /** A new game: a fresh board in the standard layout, WHITE to move, not over. */
    constructor()
      ensures fresh(board)
      ensures board.Pieces() == StandardLayout() && board.squares == Lift(StandardLayout())
      ensures turnTeam == WHITE && !gameOver
    {
      var b := new ChessBoard();
      b.ResetBoard();
      ResetEmptyBoard();
      board := b;
      turnTeam := WHITE;
      gameOver := false;
    }

    function GetTeamTurn(): TeamColor
      reads this
    {
      turnTeam
    }

    method SetTeamTurn(team: TeamColor)
      modifies this
      ensures turnTeam == team && board == old(board) && gameOver == old(gameOver)
    {
      turnTeam := team;
    }

    function GetBoard(): ChessBoard
      reads this
    {
      board
    }

    method SetBoard(b: ChessBoard)
      modifies this
      ensures board == b && turnTeam == old(turnTeam) && gameOver == old(gameOver)
    {
      board := b;
    }

    method SetGameOver(flag: bool)
      modifies this
      ensures gameOver == flag && board == old(board) && turnTeam == old(turnTeam)
    {
      gameOver := flag;
    }

    /** isInCheck: find the king (the first in row-major order), then look
        for an opponent piece with a pseudo-legal move onto its square. */
    method IsInCheck(teamColor: TeamColor) returns (r: bool)
      ensures r == InCheck(board.Pieces(), teamColor)
    {
      ghost var ps := board.Pieces();
      var whereIsTheKing: Option<Pos> := None;
      var opponentTeam := if teamColor == BLACK then WHITE else BLACK;
      var remaining := board.squares.Keys;
      while remaining != {}
        invariant remaining <= board.squares.Keys
        invariant forall q :: q in board.squares.Keys - remaining ==> !IsKingOf(ps, teamColor, q)
        invariant forall q, x :: q in board.squares.Keys - remaining && x in remaining ==> PosLe(q, x)
        invariant whereIsTheKing == None
        decreases remaining
      {
        var key := FirstKey(remaining);
        var piece := board.GetPiece(key);
        if piece != None && piece.value.pieceType == KING && piece.value.color == teamColor {
          assert IsFirstKing(ps, teamColor, key) by {
            forall q | IsKingOf(ps, teamColor, q)
              ensures PosLe(key, q)
            {
              assert q in board.squares.Keys;
            }
          }
          whereIsTheKing := Some(key);
          break;
        }
        assert !IsKingOf(ps, teamColor, key);
        remaining := remaining - {key};
      }
      assert whereIsTheKing.None? ==> forall q :: !IsKingOf(ps, teamColor, q);
      assert whereIsTheKing.Some? ==> IsFirstKing(ps, teamColor, whereIsTheKing.value);
      var others := board.squares.Keys;
      while others != {}
        invariant others <= board.squares.Keys
        invariant forall q :: q in board.squares.Keys - others && q in ps && ps[q].color == opponentTeam ==>
          whereIsTheKing.None? || !EndsOn(PseudoLegalMoves(ps, ps[q], q), whereIsTheKing.value)
        decreases others
      {
        var key :| key in others;
        var piece := board.GetPiece(key);
        if piece != None && piece.value.color == opponentTeam {
          var moves := PieceMoves(piece.value, board, key);
          for j := 0 to |moves|
            invariant forall i :: 0 <= i < j ==> Some(moves[i].end) != whereIsTheKing
          {
            if Some(moves[j].end) == whereIsTheKing {
              return true;
            }
          }
        }
        others := others - {key};
      }
      if whereIsTheKing.Some? {
        assert !Attacked(ps, opponentTeam, whereIsTheKing.value);
        forall k | IsFirstKing(ps, teamColor, k)
          ensures k == whereIsTheKing.value
        {
          FirstKingUnique(ps, teamColor, k, whereIsTheKing.value);
        }
      }
      return false;
    }

    /** validMoves: null for an empty square; otherwise each candidate is put
        on the board, kept if its side is then not in check, and taken back. */
    method ValidMoves(startPosition: Pos) returns (r: Option<seq<ChessMove>>)
      modifies board
      ensures r == ValidMovesSpec(old(board.Pieces()), startPosition)
      ensures board.Pieces() == old(board.Pieces())
      ensures NullExtension(old(board.squares), board.squares)
    {
      var piece := board.GetPiece(startPosition);
      if piece == None {
        return None;
      }
      ghost var ps := board.Pieces();
      var p := piece.value;
      var canMove := PieceMoves(p, board, startPosition);
      MovesShape(ps, p, startPosition);
      var realMoves := [];
      for i := 0 to |canMove|
        invariant board.Pieces() == ps
        invariant NullExtension(old(board.squares), board.squares)
        invariant realMoves == LegalFilter(ps, startPosition, p, canMove[..i])
      {
        ghost var sq := board.squares;
        var endPos := canMove[i].end;
        assert canMove[i] in canMove;
        var captured := board.GetPiece(endPos);
        board.AddPiece(startPosition, None);
        board.AddPiece(endPos, Some(p));
        assert board.Pieces() == Simulate(ps, startPosition, endPos, p);
        var check := IsInCheck(p.color);
        if !check {
          realMoves := realMoves + [canMove[i]];
        }
        board.AddPiece(startPosition, Some(p));
        board.AddPiece(endPos, captured);
        RevertSquares(sq, startPosition, endPos, p);
        RevertedIsNullExtension(sq, endPos);
        NullExtensionTrans(old(board.squares), sq, board.squares);
        LegalFilterSnoc(realMoves, ps, startPosition, p, canMove, i);
      }
      assert canMove[..|canMove|] == canMove;
      return Some(realMoves);
    }

    /** The part of makeMove that moves the piece: put it on the end square,
        remove it from the start square, and replace a pawn that reaches row
        1 or 8 by the promotion type the move names. */
    method PlaceMove(move: ChessMove, piece: ChessPiece)
      requires move.start in board.Pieces() && board.Pieces()[move.start] == piece
      modifies board
      ensures board.Pieces() == AfterMove(old(board.Pieces()), move)
      ensures forall q :: q != move.start && q != move.end ==>
        (q in board.squares <==> q in old(board.squares)) && (q in board.squares ==> board.squares[q] == old(board.squares)[q])
    {
      board.AddPiece(move.end, Some(piece));
      board.RemovePiece(move.start);
      if piece.pieceType == PAWN && (move.end.row == 1 || move.end.row == 8) && move.promotion.Some? {
        board.AddPiece(move.end, Some(ChessPiece(piece.color, move.promotion.value)));
      }
    }

    /** makeMove: the three guards, the move with promotion, the defensive
        check with rollback, then clearEmptySpace and the turn flip. An
        exception is a Fail carrying its message. The gameOver flag is not
        consulted. */
    method MakeMove(move: ChessMove) returns (r: Outcome<string>)
      modifies this, board
      ensures board == old(board) && gameOver == old(gameOver)
      ensures r == MoveOutcome(old(board.Pieces()), old(turnTeam), move)
      ensures r.Pass? ==>
        && board.Pieces() == AfterMove(old(board.Pieces()), move)
        && board.squares == Lift(board.Pieces())
        && turnTeam == Opponent(old(turnTeam))
      ensures r.Fail? ==>
        && board.Pieces() == old(board.Pieces())
        && NullExtension(old(board.squares), board.squares)
        && turnTeam == old(turnTeam)
    {
      ghost var ps := board.Pieces();
      var start := move.start;
      var end := move.end;
      var piece := board.GetPiece(start);
      if piece == None {
        return Fail("No piece at the starting position");
      }
      if piece.value.color != turnTeam {
        return Fail("It's not your turn");
      }
      var validMoves := ValidMoves(start);
      if move !in validMoves.value {
        return Fail("Invalid move");
      }
      ghost var turn := turnTeam;
      assert move in LegalMoves(ps, start);
      LegalMovesShape(ps, start);
      ghost var sq := board.squares;
      var reverseInCaseOfCheck := board.GetPiece(end);
      PlaceMove(move, piece.value);
      var check := IsInCheck(turnTeam);
      assert check == InCheck(AfterMove(ps, move), turn);
      if check {
        RollbackSquares(sq, board.squares, start, end, piece.value);
        RevertedIsNullExtension(sq, end);
        board.AddPiece(start, piece);
        board.AddPiece(end, reverseInCaseOfCheck);
        NullExtensionTrans(old(board.squares), sq, board.squares);
        return Fail("Move results in Check");
      }
      board.ClearEmptySpace();
      turnTeam := if turnTeam == WHITE then BLACK else WHITE;
      return Pass;
    }

    /** isInCheckmate's inner loop: replay each move (end square first), test
        for check, take it back; stop at the first move that escapes check. */
    method TryEscapes(teamColor: TeamColor, inTheStart: Pos, piece: ChessPiece, moves: seq<ChessMove>)
      returns (escaped: bool)
      requires inTheStart in board.Pieces() && board.Pieces()[inTheStart] == piece
      requires forall m :: m in moves ==> m.end != inTheStart
      modifies board
      ensures escaped == AnyEscape(old(board.Pieces()), teamColor, inTheStart, piece, moves)
      ensures board.Pieces() == old(board.Pieces())
      ensures NullExtension(old(board.squares), board.squares)
    {
      ghost var ps := board.Pieces();
      for j := 0 to |moves|
        invariant board.Pieces() == ps
        invariant NullExtension(old(board.squares), board.squares)
        invariant !AnyEscape(ps, teamColor, inTheStart, piece, moves[..j])
      {
        var movement := moves[j];
        assert movement in moves;
        AnyEscapeSnoc(ps, teamColor, inTheStart, piece, moves, j);
        ghost var sq := board.squares;
        var captured := board.GetPiece(movement.end);
        board.AddPiece(movement.end, Some(piece));
        board.AddPiece(inTheStart, None);
        ghost var sim := Replay(ps, inTheStart, movement.end, piece);
        assert board.Pieces() == sim;
        var check := IsInCheck(teamColor);
        assert check == InCheck(sim, teamColor);
        RevertSquares(sq, inTheStart, movement.end, piece);
        RevertedIsNullExtension(sq, movement.end);
        board.AddPiece(inTheStart, Some(piece));
        board.AddPiece(movement.end, captured);
        NullExtensionTrans(old(board.squares), sq, board.squares);
        if !check {
          AnyEscapePrefix(ps, teamColor, inTheStart, piece, moves, j + 1);
          return true;
        }
      }
      assert moves[..|moves|] == moves;
      return false;
    }

    /** isInCheckmate: in check, and every legal move of every piece of the
        side, replayed on the board and taken back, leaves it in check. */
    method IsInCheckmate(teamColor: TeamColor) returns (r: bool)
      modifies board
      ensures r == Checkmate(old(board.Pieces()), teamColor)
      ensures r == (InCheck(old(board.Pieces()), teamColor) && NoLegalMoves(old(board.Pieces()), teamColor))
      ensures board.Pieces() == old(board.Pieces())
      ensures NullExtension(old(board.squares), board.squares)
    {
      ghost var ps := board.Pieces();
      CheckmateMeans(ps, teamColor);
      var inCheck := IsInCheck(teamColor);
      if !inCheck {
        return false;
      }
      var entries := board.squares.Keys;
      while entries != {}
        invariant board.Pieces() == ps
        invariant NullExtension(old(board.squares), board.squares)
        invariant entries <= old(board.squares).Keys
        invariant forall p :: p in old(board.squares).Keys - entries && p in ps && ps[p].color == teamColor ==>
          Trapped(ps, teamColor, p)
        decreases entries
      {
        var inTheStart :| inTheStart in entries;
        var piece := board.GetPiece(inTheStart);
        if piece != None && piece.value.color == teamColor {
          var realMoves := ValidMoves(inTheStart);
          var moves := realMoves.value;
          LegalMovesShape(ps, inTheStart);
          ghost var sq := board.squares;
          var escaped := TryEscapes(teamColor, inTheStart, piece.value, moves);
          AnyEscapeMembers(ps, teamColor, inTheStart, piece.value, moves);
          NullExtensionTrans(old(board.squares), sq, board.squares);
          if escaped {
            return false;
          }
        }
        entries := entries - {inTheStart};
      }
      return true;
    }

    /** isInStalemate: not in check, and no piece of the side has a legal move. */
    method IsInStalemate(teamColor: TeamColor) returns (r: bool)
      modifies board
      ensures r == Stalemate(old(board.Pieces()), teamColor)
      ensures board.Pieces() == old(board.Pieces())
      ensures NullExtension(old(board.squares), board.squares)
    {
      ghost var ps := board.Pieces();
      var inCheck := IsInCheck(teamColor);
      if inCheck {
        return false;
      }
      var entries := board.squares.Keys;
      while entries != {}
        invariant board.Pieces() == ps
        invariant NullExtension(old(board.squares), board.squares)
        invariant entries <= old(board.squares).Keys
        invariant forall p :: p in old(board.squares).Keys - entries && p in ps && ps[p].color == teamColor ==>
          LegalMoves(ps, p) == []
        decreases entries
      {
        var inTheStart :| inTheStart in entries;
        var piece := board.GetPiece(inTheStart);
        if piece != None && piece.value.color == teamColor {
          ghost var sq := board.squares;
          var realMoves := ValidMoves(inTheStart);
          NullExtensionTrans(old(board.squares), sq, board.squares);
          if realMoves.value != [] {
            return false;
          }
        }
        entries := entries - {inTheStart};
      }
      return true;
    }

    /** isGameOver: the flag, then checkmate and stalemate of each side, short-circuited. */
    method IsGameOver() returns (r: bool)
      modifies board
      ensures r == GameOver(old(gameOver), old(board.Pieces()))
      ensures board.Pieces() == old(board.Pieces())
      ensures NullExtension(old(board.squares), board.squares)
    {
      if gameOver {
        return true;
      }
      ghost var sq0 := board.squares;
      r := IsInCheckmate(WHITE);
      if r {
        return;
      }
      ghost var sq1 := board.squares;
      r := IsInCheckmate(BLACK);
      NullExtensionTrans(sq0, sq1, board.squares);
      if r {
        return;
      }
      ghost var sq2 := board.squares;
      r := IsInStalemate(WHITE);
      NullExtensionTrans(sq0, sq2, board.squares);
      if r {
        return;
      }
      ghost var sq3 := board.squares;
      r := IsInStalemate(BLACK);
      NullExtensionTrans(sq0, sq3, board.squares);
    }
  }
}
