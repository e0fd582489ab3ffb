/** The value types of the chess engine: colours, piece kinds, pieces,
    positions and moves. Pieces, positions and moves are immutable in the
    source and compared structurally, so they are datatypes here. */
module ChessTypes {

  import opened Wrappers

  /** ChessGame.TeamColor */
  datatype TeamColor = WHITE | BLACK

  function Opponent(c: TeamColor): (o: TeamColor)
    ensures o != c
  {
    if c == WHITE then BLACK else WHITE
  }

  /** TeamColor.toString(): the constant's name. */
  function ColorName(c: TeamColor): string
  {
    match c
    case WHITE => "WHITE"
    case BLACK => "BLACK"
  }

  /** TeamColor.valueOf(s): the colour with exactly that name, or None
      (IllegalArgumentException). */
  function ColorValueOf(s: string): Option<TeamColor>
  {
    if s == "WHITE" then Some(WHITE) else if s == "BLACK" then Some(BLACK) else None
  }

  /** valueOf and the name are inverse: a string names a colour exactly when
      it is that colour's name. */
  lemma ColorValueOfName(s: string, c: TeamColor)
    ensures ColorValueOf(s) == Some(c) <==> ColorName(c) == s
  {
  }

  /** ChessPiece.PieceType */
  datatype PieceType = KING | QUEEN | BISHOP | KNIGHT | ROOK | PAWN

  /** PieceType.toString(): the constant's name. */
  function TypeName(t: PieceType): string
  {
    match t
    case KING => "KING"
    case QUEEN => "QUEEN"
    case BISHOP => "BISHOP"
    case KNIGHT => "KNIGHT"
    case ROOK => "ROOK"
    case PAWN => "PAWN"
  }

  /** PieceType.valueOf(s): the kind with exactly that name, or None. */
  function TypeValueOf(s: string): Option<PieceType>
  {
    if s == "KING" then Some(KING)
    else if s == "QUEEN" then Some(QUEEN)
    else if s == "BISHOP" then Some(BISHOP)
    else if s == "KNIGHT" then Some(KNIGHT)
    else if s == "ROOK" then Some(ROOK)
    else if s == "PAWN" then Some(PAWN)
    else None
  }

  /** valueOf and the name are inverse for piece kinds. */
  lemma TypeValueOfName(s: string, t: PieceType)
    ensures TypeValueOf(s) == Some(t) <==> TypeName(t) == s
  {
  }

  /** A piece: structural equality is the source's equals (colour and type). */
  datatype ChessPiece = ChessPiece(color: TeamColor, pieceType: PieceType)

  /** ChessPosition: a row and a column, compared structurally. */
  datatype Pos = Pos(row: int, col: int)

  /** ChessMove: start, end and an optional promotion type (null in the source). */
  datatype ChessMove = ChessMove(start: Pos, end: Pos, promotion: Option<PieceType>)

  /** What `getPiece` sees: the board with every null-valued entry dropped. */
  type Pieces = map<Pos, ChessPiece>

  /** `getPiece` on the view: the piece, or None for an empty square. */
  function Get(ps: Pieces, p: Pos): Option<ChessPiece>
  {
    if p in ps then Some(ps[p]) else None
  }

  /** ChessPiece.isValidPosition: both coordinates in 1..8. */
  predicate IsValidPosition(p: Pos)
  {
    1 <= p.row <= 8 && 1 <= p.col <= 8
  }

  /** Row-major order on positions. The source iterates a HashMap whose order
      depends on a hash code that is not part of this model; where the order
      matters, the model iterates in this order. */
  predicate PosLe(a: Pos, b: Pos)
  {
    a.row < b.row || (a.row == b.row && a.col <= b.col)
  }

  lemma {:induction false} MinPosExists(s: set<Pos>)
    requires s != {}
    ensures exists m :: m in s && forall x :: x in s ==> PosLe(m, x)
  {
    var y :| y in s;
    var rest := s - {y};
    if rest == {} {
      forall x | x in s
        ensures PosLe(y, x)
      {
        assert x !in rest;
      }
    } else {
      MinPosExists(rest);
      var m :| m in rest && forall x :: x in rest ==> PosLe(m, x);
      var w := if PosLe(y, m) then y else m;
      forall x | x in s
        ensures PosLe(w, x)
      {
        if x != y {
          assert x in rest;
          assert PosLe(m, x);
        }
      }
      assert w in s;
    }
  }

  /** Picks the first remaining key in row-major order. */
  method FirstKey(s: set<Pos>) returns (m: Pos)
    requires s != {}
    ensures m in s && forall x :: x in s ==> PosLe(m, x)
  {
    MinPosExists(s);
    m :| m in s && forall x :: x in s ==> PosLe(m, x);
  }
}
