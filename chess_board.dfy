/** ChessBoard: a sparse, mutable map from position to piece. The source's
    HashMap may hold a position mapped to null (ChessGame writes such entries
    while it simulates and reverts moves), so the raw map is kept with
    `Option` values; `Pieces()` is what `getPiece` sees. */
module Board {

  import opened Wrappers
  import opened ChessTypes

  /** The raw map: `None` is a key mapped to null. */
  type Squares = map<Pos, Option<ChessPiece>>

  /** The `getPiece` view of a raw map: null-valued entries dropped. */
  function Normalize(sq: Squares): Pieces
  {
    map p | p in sq && sq[p].Some? :: sq[p].value
  }

  /** The raw map holding exactly the pieces of a view, with no null values. */
  function Lift(ps: Pieces): Squares
  {
    map p | p in ps :: Some(ps[p])
  }

  /** Putting a piece (or null) at one key changes the view at that key only. */
  lemma NormalizeUpdate(sq: Squares, p: Pos, x: Option<ChessPiece>)
    ensures Normalize(sq[p := x]) == if x.Some? then Normalize(sq)[p := x.value] else Normalize(sq) - {p}
  {
  }

  /** Removing a key changes the view at that key only. */
  lemma NormalizeRemove(sq: Squares, p: Pos)
    ensures Normalize(sq - {p}) == Normalize(sq) - {p}
  {
  }

  /** Map equality (ChessBoard.equals) tells a key mapped to null apart from
      an absent key, although `getPiece` returns null for both. */
  lemma NullEntryChangesEquality(sq: Squares, p: Pos)
    requires p !in sq
    ensures sq[p := None] != sq
    ensures Normalize(sq[p := None]) == Normalize(sq)
  {
    assert p in sq[p := None];
  }

  /** The piece type on files 1..8 of a back rank. */
  function BackRankType(col: int): PieceType
  {
    if col == 1 || col == 8 then ROOK
    else if col == 2 || col == 7 then KNIGHT
    else if col == 3 || col == 6 then BISHOP
    else if col == 4 then QUEEN
    else KING
  }

  /** The eight back-rank pieces of `side` put on row `row`, files 1 to 8 in turn. */
  function PlaceBackRank(sq: Squares, side: TeamColor, row: int): Squares
  {
    sq[Pos(row, 1) := Some(ChessPiece(side, ROOK))]
      [Pos(row, 2) := Some(ChessPiece(side, KNIGHT))]
      [Pos(row, 3) := Some(ChessPiece(side, BISHOP))]
      [Pos(row, 4) := Some(ChessPiece(side, QUEEN))]
      [Pos(row, 5) := Some(ChessPiece(side, KING))]
      [Pos(row, 6) := Some(ChessPiece(side, BISHOP))]
      [Pos(row, 7) := Some(ChessPiece(side, KNIGHT))]
      [Pos(row, 8) := Some(ChessPiece(side, ROOK))]
  }

  /** Pawns of `side` put on row `row`, files 1 to n in turn. */
  function PlacePawns(sq: Squares, side: TeamColor, row: int, n: nat): Squares
  {
    if n == 0 then sq else PlacePawns(sq, side, row, n - 1)[Pos(row, n) := Some(ChessPiece(side, PAWN))]
  }

  /** What startingPieces(side, nonPawns, pawns) does to the board. */
  function PlaceSide(sq: Squares, side: TeamColor, nonPawns: int, pawns: int): Squares
  {
    PlacePawns(PlaceBackRank(sq, side, nonPawns), side, pawns, 8)
  }

  lemma {:induction false} PlacePawnsAt(sq: Squares, side: TeamColor, row: int, n: nat)
    ensures forall p :: p in PlacePawns(sq, side, row, n) <==> p in sq || (p.row == row && 1 <= p.col <= n)
    ensures forall p :: p in PlacePawns(sq, side, row, n) ==>
      PlacePawns(sq, side, row, n)[p] == if p.row == row && 1 <= p.col <= n then Some(ChessPiece(side, PAWN)) else sq[p]
  {
    if n > 0 {
      PlacePawnsAt(sq, side, row, n - 1);
    }
  }

  lemma PlaceBackRankAt(sq: Squares, side: TeamColor, row: int)
    ensures forall p :: p in PlaceBackRank(sq, side, row) <==> p in sq || (p.row == row && 1 <= p.col <= 8)
    ensures forall p :: p in PlaceBackRank(sq, side, row) ==>
      PlaceBackRank(sq, side, row)[p] == if p.row == row && 1 <= p.col <= 8 then Some(ChessPiece(side, BackRankType(p.col))) else sq[p]
  {
    var r := PlaceBackRank(sq, side, row);
    forall p
      ensures p in r <==> p in sq || (p.row == row && 1 <= p.col <= 8)
      ensures p in r ==> r[p] == if p.row == row && 1 <= p.col <= 8 then Some(ChessPiece(side, BackRankType(p.col))) else sq[p]
    {
      if p.row == row && 1 <= p.col <= 8 {
        assert p in r;
      }
    }
  }

  /** startingPieces puts the back rank on row `nonPawns` and pawns on row
      `pawns` (files 1..8), overwriting those squares and nothing else. */
  lemma PlaceSideAt(sq: Squares, side: TeamColor, nonPawns: int, pawns: int)
    ensures forall p :: p in PlaceSide(sq, side, nonPawns, pawns) <==>
      p in sq || ((p.row == nonPawns || p.row == pawns) && 1 <= p.col <= 8)
    ensures forall p :: p in PlaceSide(sq, side, nonPawns, pawns) ==>
      PlaceSide(sq, side, nonPawns, pawns)[p] ==
        if p.row == pawns && 1 <= p.col <= 8 then Some(ChessPiece(side, PAWN))
        else if p.row == nonPawns && 1 <= p.col <= 8 then Some(ChessPiece(side, BackRankType(p.col)))
        else sq[p]
  {
    PlaceBackRankAt(sq, side, nonPawns);
    PlacePawnsAt(PlaceBackRank(sq, side, nonPawns), side, pawns, 8);
  }

  /** What resetBoard does to the board. */
  function ResetSquares(sq: Squares): Squares
  {
    PlaceSide(PlaceSide(sq, WHITE, 1, 2), BLACK, 8, 7)
  }

  /** The squares of the opening layout and the piece on each. */
  predicate InLayout(p: Pos)
  {
    (p.row == 1 || p.row == 2 || p.row == 7 || p.row == 8) && 1 <= p.col <= 8
  }

  function LayoutPiece(p: Pos): ChessPiece
  {
    ChessPiece(if p.row <= 2 then WHITE else BLACK,
               if p.row == 2 || p.row == 7 then PAWN else BackRankType(p.col))
  }

  /** resetBoard overwrites exactly the 32 squares of the opening layout. */
  lemma ResetSquaresAt(sq: Squares)
    ensures forall p :: p in ResetSquares(sq) <==> p in sq || InLayout(p)
    ensures forall p :: p in ResetSquares(sq) ==>
      ResetSquares(sq)[p] == if InLayout(p) then Some(LayoutPiece(p)) else sq[p]
  {
    var white := PlaceSide(sq, WHITE, 1, 2);
    PlaceSideAt(sq, WHITE, 1, 2);
    PlaceSideAt(white, BLACK, 8, 7);
  }

  function RowSquares(r: int): set<Pos>
  {
    {Pos(r, 1), Pos(r, 2), Pos(r, 3), Pos(r, 4), Pos(r, 5), Pos(r, 6), Pos(r, 7), Pos(r, 8)}
  }

  lemma RowSquaresAt(r: int)
    ensures forall p :: p in RowSquares(r) <==> p.row == r && 1 <= p.col <= 8
    ensures |RowSquares(r)| == 8
  {
    forall p: Pos | p.row == r && 1 <= p.col <= 8
      ensures p in RowSquares(r)
    {
      assert p == Pos(r, p.col);
    }
  }

  /** Adding a row of eight squares that shares no square with `s`. */
  lemma AddRow(s: set<Pos>, r: int)
    requires forall p :: p in s ==> p.row != r
    ensures |s + RowSquares(r)| == |s| + 8
  {
    RowSquaresAt(r);
    assert s * RowSquares(r) == {};
  }

  /** Four disjoint rows of eight squares. */
  lemma LayoutSquaresCount(keys: set<Pos>)
    requires forall p :: p in keys <==> InLayout(p)
    ensures |keys| == 32
  {
    RowSquaresAt(1); RowSquaresAt(2); RowSquaresAt(7); RowSquaresAt(8);
    var a, b, c, d := RowSquares(1), RowSquares(2), RowSquares(7), RowSquares(8);
    AddRow(a, 2);
    AddRow(a + b, 7);
    AddRow(a + b + c, 8);
    assert keys == a + b + c + d;
  }

  /** The standard opening position, stated square by square. */
  function StandardLayout(): Pieces
  {
    map p | p in RowSquares(1) + RowSquares(2) + RowSquares(7) + RowSquares(8) :: LayoutPiece(p)
  }

  lemma StandardLayoutAt()
    ensures forall p :: p in StandardLayout() <==> InLayout(p)
    ensures forall p :: p in StandardLayout() ==> StandardLayout()[p] == LayoutPiece(p)
  {
    RowSquaresAt(1); RowSquaresAt(2); RowSquaresAt(7); RowSquaresAt(8);
  }

  /** The opening layout: rook, knight, bishop, queen, king, bishop, knight,
      rook on rows 1 (WHITE) and 8 (BLACK), pawns on rows 2 and 7, nothing
      else; this is 32 pieces and rows 3 to 6 are empty. */
  lemma StandardLayoutShape()
    ensures forall c :: 1 <= c <= 8 ==>
      && Get(StandardLayout(), Pos(1, c)) == Some(ChessPiece(WHITE, BackRankType(c)))
      && Get(StandardLayout(), Pos(2, c)) == Some(ChessPiece(WHITE, PAWN))
      && Get(StandardLayout(), Pos(7, c)) == Some(ChessPiece(BLACK, PAWN))
      && Get(StandardLayout(), Pos(8, c)) == Some(ChessPiece(BLACK, BackRankType(c)))
    ensures forall p :: p in StandardLayout() ==>
      IsValidPosition(p) && (p.row == 1 || p.row == 2 || p.row == 7 || p.row == 8)
    ensures forall p: Pos :: 3 <= p.row <= 6 ==> Get(StandardLayout(), p) == None
    ensures |StandardLayout()| == 32
  {
    StandardLayoutAt();
    LayoutSquaresCount(StandardLayout().Keys);
  }

  /** resetBoard on an empty board gives exactly the standard layout, with
      no null-valued key. */
  lemma ResetEmptyBoard()
    ensures ResetSquares(map[]) == Lift(StandardLayout())
    ensures Normalize(ResetSquares(map[])) == StandardLayout()
  {
    ResetSquaresAt(map[]);
    StandardLayoutAt();
  }

  class ChessBoard {
    var squares: Squares

    constructor()
      ensures squares == map[]
    {
      squares := map[];
    }

    /** The pieces on the board, as getPiece sees them. */
    function Pieces(): Pieces
      reads this
    {
      Normalize(squares)
    }

    /** getPiece: the raw lookup, with a missing key read as null, agrees with the view. */
    function GetPiece(position: Pos): (r: Option<ChessPiece>)
      reads this
      ensures r == Get(Pieces(), position)
    {
      if position in squares then squares[position] else None
    }

    /** equals: compares the raw maps, null-valued keys included; equal
        boards read the same at every square. */
    function Equals(that: ChessBoard): (r: bool)
      reads this, that
      ensures r ==> Pieces() == that.Pieces() && forall q :: GetPiece(q) == that.GetPiece(q)
    {
      squares == that.squares
    }

    /** addPiece: `put`, where `piece` may be null. */
    method AddPiece(position: Pos, piece: Option<ChessPiece>)
      modifies this
      ensures squares == old(squares)[position := piece]
      ensures GetPiece(position) == piece
      ensures forall q :: q != position ==> GetPiece(q) == old(GetPiece(q))
      ensures Pieces() == if piece.Some? then old(Pieces())[position := piece.value] else old(Pieces()) - {position}
    {
      NormalizeUpdate(squares, position, piece);
      squares := squares[position := piece];
    }

    /** removePiece: `remove`. */
    method RemovePiece(position: Pos)
      modifies this
      ensures squares == old(squares) - {position}
      ensures GetPiece(position) == None
      ensures forall q :: q != position ==> GetPiece(q) == old(GetPiece(q))
      ensures Pieces() == old(Pieces()) - {position}
    {
      NormalizeRemove(squares, position);
      squares := squares - {position};
    }

    /** clearEmptySpace: drops exactly the null-valued entries. */
    method ClearEmptySpace()
      modifies this
      ensures squares == Lift(old(Pieces()))
      ensures Pieces() == old(Pieces())
      ensures forall q :: GetPiece(q) == old(GetPiece(q))
    {
      squares := map p | p in squares && squares[p].Some? :: squares[p];
      assert squares == Lift(old(Pieces()));
    }

    /** startingPieces: the eight back-rank pieces, then a loop over files 1..8 for the pawns. */
    method StartingPieces(side: TeamColor, nonPawns: int, pawns: int)
      modifies this
      ensures squares == PlaceSide(old(squares), side, nonPawns, pawns)
    {
      AddPiece(Pos(nonPawns, 1), Some(ChessPiece(side, ROOK)));
      AddPiece(Pos(nonPawns, 2), Some(ChessPiece(side, KNIGHT)));
      AddPiece(Pos(nonPawns, 3), Some(ChessPiece(side, BISHOP)));
      AddPiece(Pos(nonPawns, 4), Some(ChessPiece(side, QUEEN)));
      AddPiece(Pos(nonPawns, 5), Some(ChessPiece(side, KING)));
      AddPiece(Pos(nonPawns, 6), Some(ChessPiece(side, BISHOP)));
      AddPiece(Pos(nonPawns, 7), Some(ChessPiece(side, KNIGHT)));
      AddPiece(Pos(nonPawns, 8), Some(ChessPiece(side, ROOK)));
      ghost var ranked := squares;
      assert ranked == PlaceBackRank(old(squares), side, nonPawns);
      for i := 1 to 9
        invariant squares == PlacePawns(ranked, side, pawns, i - 1)
      {
        AddPiece(Pos(pawns, i), Some(ChessPiece(side, PAWN)));
      }
    }

    /** resetBoard: WHITE on rows 1 and 2, then BLACK on rows 8 and 7, on top
        of whatever is already on the board. */
    method ResetBoard()
      modifies this
      ensures squares == ResetSquares(old(squares))
    {
      StartingPieces(WHITE, 1, 2);
      StartingPieces(BLACK, 8, 7);
    }
  }

  /** Two boards that differ only by a key mapped to null read the same at
      every square, yet `equals` tells them apart. */
  lemma NullEntryBreaksEquals(a: ChessBoard, b: ChessBoard, p: Pos)
    requires p !in a.squares && b.squares == a.squares[p := None]
    ensures !a.Equals(b) && !b.Equals(a)
    ensures a.Pieces() == b.Pieces() && forall q :: a.GetPiece(q) == b.GetPiece(q)
  {
    NullEntryChangesEquality(a.squares, p);
  }
}
