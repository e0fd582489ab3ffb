/** The Gson type adapters the MySQL store uses to write a game into its
    `game` text column and read it back: a game is an object with its board,
    the side to move and the game-over flag; a board is an object keyed
    "row,column" whose values are the pieces (or null); a position is an
    object with "row" and "column". A thrown exception is an `Err` naming it. */
module Adapters {

  import opened Wrappers
  import opened ChessTypes
  import opened Board
  import opened Game
  import opened Records
  import opened Text

  /** A Gson JsonElement: null, a boolean, a number (integral), a string or an object. */
  datatype Json = JNull | JBool(b: bool) | JNum(n: int) | JStr(s: string) | JObj(fields: map<string, Json>)

  predicate IsInt32(n: int)
  {
    MinInt32 as int <= n <= MaxInt32 as int
  }

  /** Both coordinates fit a Java `int`, as every ChessPosition's do. */
  predicate Int32Coords(p: Pos)
  {
    IsInt32(p.row) && IsInt32(p.col)
  }

  /** Number.intValue() on an integral number: the low 32 bits, as a signed int. */
  function Wrap32(n: int): (r: Int32)
    ensures (r as int - n) % 0x1_0000_0000 == 0
    ensures IsInt32(n) ==> r as int == n
  {
    ((n + 0x8000_0000) % 0x1_0000_0000 - 0x8000_0000) as Int32
  }

  /** JsonElement.getAsString: a string as is, a number or a boolean printed;
      null and objects have none. */
  function AsString(j: Json): Result<string, string>
  {
    match j
    case JStr(s) => Ok(s)
    case JNum(n) => Ok(IntToString(n))
    case JBool(b) => Ok(if b then "true" else "false")
    case _ => Err("UnsupportedOperationException")
  }

  /** JsonElement.getAsBoolean: a boolean as is; a string is "true" ignoring
      case (Boolean.parseBoolean); a number's printed form never is. */
  function AsBoolean(j: Json): (r: Result<bool, string>)
    ensures r.Err? <==> j.JNull? || j.JObj?
    ensures j.JBool? ==> r == Ok(j.b)
    ensures j.JStr? ==> r == Ok(EqualsIgnoreCase(j.s, "true"))
  {
    match j
    case JBool(b) => Ok(b)
    case JStr(s) => Ok(EqualsIgnoreCase(s, "true"))
    case JNum(_) => Ok(false)
    case _ => Err("UnsupportedOperationException")
  }

  /** JsonElement.getAsInt: a number's int value; a string parsed by
      Integer.parseInt; a boolean's printed form never parses. */
  function AsInt(j: Json): (r: Result<Int32, string>)
    ensures r.Ok? <==> j.JNum? || (j.JStr? && ParseInt(j.s).Some?)
    ensures j.JNum? ==> r == Ok(Wrap32(j.n))
    ensures j.JStr? && r.Ok? ==> Some(r.value) == ParseInt(j.s)
  {
    match j
    case JNum(n) => Ok(Wrap32(n))
    case JStr(s) => if ParseInt(s).None? then Err("NumberFormatException") else Ok(ParseInt(s).value)
    case JBool(_) => Err("NumberFormatException")
    case _ => Err("UnsupportedOperationException")
  }

  // ---------------------------------------------------------------------
  // Board keys

  /** The key a square is written under: its row, a comma, its column. */
  function KeyOf(p: Pos): string
  {
    IntToString(p.row) + "," + IntToString(p.col)
  }

  /** The key reader of the board adapter: split on commas, parse the first
      field, then the second. */
  function ParseKey(key: string): Result<Pos, string>
  {
    var place := Split(key);
    if |place| < 1 then Err("ArrayIndexOutOfBoundsException")
    else if ParseInt(place[0]).None? then Err("NumberFormatException")
    else if |place| < 2 then Err("ArrayIndexOutOfBoundsException")
    else if ParseInt(place[1]).None? then Err("NumberFormatException")
    else Ok(Pos(ParseInt(place[0]).value as int, ParseInt(place[1]).value as int))
  }

  lemma IntToStringCommaFree(n: int)
    ensures CommaFree(IntToString(n)) && IntToString(n) != []
  {
    var d := NatToString(if n < 0 then -n else n);
    assert forall i :: 0 <= i < |d| ==> IsDigit(d[i]);
  }

  /** A key splits into the printed row and the printed column. */
  lemma SplitKey(p: Pos)
    ensures Split(KeyOf(p)) == [IntToString(p.row), IntToString(p.col)]
  {
    IntToStringCommaFree(p.row);
    IntToStringCommaFree(p.col);
    SplitPair(IntToString(p.row), IntToString(p.col));
  }

  /** Reading a key gives back the position it was written for. */
  lemma KeyRoundTrip(p: Pos)
    requires Int32Coords(p)
    ensures ParseKey(KeyOf(p)) == Ok(p)
  {
    SplitKey(p);
    ParseIntToString(p.row as Int32);
    ParseIntToString(p.col as Int32);
  }

  /** Distinct positions are written under distinct keys. */
  lemma KeyOfInjective(p: Pos, q: Pos)
    ensures KeyOf(p) == KeyOf(q) ==> p == q
  {
    if KeyOf(p) == KeyOf(q) {
      SplitKey(p);
      SplitKey(q);
      IntToStringInjective(p.row, q.row);
      IntToStringInjective(p.col, q.col);
    }
  }

  // ---------------------------------------------------------------------
  // Pieces

  /** Gson's reflective form of a piece reference: null, or an object naming
      the colour and the type. */
  function EncodePiece(piece: Option<ChessPiece>): Json
  {
    match piece
    case None => JNull
    case Some(p) => JObj(map["color" := JStr(ColorName(p.color)), "type" := JStr(TypeName(p.pieceType))])
  }

  /** Reading a piece back: null is no piece; an object needs a known colour
      name and a known type name (other fields are ignored). */
  function DecodePiece(j: Json): Result<Option<ChessPiece>, string>
  {
    match j
    case JNull => Ok(None)
    case JObj(f) =>
      if && "color" in f && f["color"].JStr? && ColorValueOf(f["color"].s).Some?
         && "type" in f && f["type"].JStr? && TypeValueOf(f["type"].s).Some?
      then Ok(Some(ChessPiece(ColorValueOf(f["color"].s).value, TypeValueOf(f["type"].s).value)))
      else Err("JsonParseException")
    case _ => Err("JsonParseException")
  }

  /** Reading a written piece gives the piece back. */
  lemma PieceRoundTrip(x: Option<ChessPiece>)
    ensures DecodePiece(EncodePiece(x)) == Ok(x)
  {
    if x.Some? {
      ColorValueOfName(ColorName(x.value.color), x.value.color);
      TypeValueOfName(TypeName(x.value.pieceType), x.value.pieceType);
    }
  }

  /** A piece is read only from null or from an object that names its colour
      and its type. */
  lemma DecodePieceReads(j: Json)
    ensures DecodePiece(j) == Ok(None) <==> j.JNull?
    ensures DecodePiece(j).Ok? && DecodePiece(j).value.Some? ==>
      && j.JObj? && "color" in j.fields && "type" in j.fields
      && j.fields["color"] == JStr(ColorName(DecodePiece(j).value.value.color))
      && j.fields["type"] == JStr(TypeName(DecodePiece(j).value.value.pieceType))
  {
    if j.JObj? && DecodePiece(j).Ok? {
      var f := j.fields;
      ColorValueOfName(f["color"].s, ColorValueOf(f["color"].s).value);
      TypeValueOfName(f["type"].s, TypeValueOf(f["type"].s).value);
    }
  }

  // ---------------------------------------------------------------------
  // Boards

  /** `fields` is what the board adapter writes for the raw map `sq`: every
      square, null-valued ones included, under its key; nothing else. */
  ghost predicate EncodesBoard(fields: map<string, Json>, sq: Squares)
  {
    && (forall p :: p in sq ==> KeyOf(p) in fields && fields[KeyOf(p)] == EncodePiece(sq[p]))
    && (forall k :: k in fields ==> exists p :: p in sq && KeyOf(p) == k)
  }

  /** Every entry of the object has a readable key and a readable piece. */
  ghost predicate BoardDecodes(j: Json)
  {
    j.JObj? && forall k :: k in j.fields ==> ParseKey(k).Ok? && DecodePiece(j.fields[k]).Ok?
  }

  /** `sq` is what the board adapter reads from `fields`: a square for each
      position some key names, holding the piece of a key that names it. */
  ghost predicate DecodesBoard(fields: map<string, Json>, sq: Squares)
  {
    && (forall k :: k in fields && ParseKey(k).Ok? ==> ParseKey(k).value in sq)
    && (forall p :: p in sq ==> exists k :: k in fields && ParseKey(k) == Ok(p) && DecodePiece(fields[k]) == Ok(sq[p]))
  }

  /** AdaptChessBoard.serialize: one entry per square of the raw map. */
  method SerializeBoard(board: ChessBoard) returns (j: Json)
    ensures j.JObj? && EncodesBoard(j.fields, board.squares)
  {
    var fields: map<string, Json> := map[];
    var rest := board.squares.Keys;
    ghost var done: set<Pos> := {};
    while rest != {}
      invariant rest + done == board.squares.Keys && rest !! done
      invariant forall p :: p in done ==> KeyOf(p) in fields && fields[KeyOf(p)] == EncodePiece(board.squares[p])
      invariant forall k :: k in fields ==> exists p :: p in done && KeyOf(p) == k
      decreases rest
    {
      var p :| p in rest;
      forall q | q in done
        ensures KeyOf(q) != KeyOf(p)
      {
        KeyOfInjective(q, p);
      }
      fields := fields[KeyOf(p) := EncodePiece(board.squares[p])];
      rest := rest - {p};
      done := done + {p};
    }
    return JObj(fields);
  }

  /** The entries `done` of `fields` have been read into `sq` with the key
      reader `parse` and the piece reader `decode`: each one was readable and
      its position is on the board, and each square holds the piece of the
      entry `from` names for it. */
  ghost predicate ReadSoFar(parse: string -> Result<Pos, string>, decode: Json -> Result<Option<ChessPiece>, string>,
                            fields: map<string, Json>, done: set<string>, sq: Squares, from: map<Pos, string>)
  {
    && (forall k :: k in done ==> k in fields && parse(k).Ok? && decode(fields[k]).Ok?)
    && (forall k :: k in done ==> parse(k).value in sq)
    && from.Keys == sq.Keys
    && (forall p :: p in from ==> from[p] in done && parse(from[p]) == Ok(p))
    && (forall p :: p in from ==> decode(fields[from[p]]) == Ok(sq[p]))
  }

  /** Reading one more readable entry: addPiece at its position. */
  lemma ReadStep(parse: string -> Result<Pos, string>, decode: Json -> Result<Option<ChessPiece>, string>,
                 fields: map<string, Json>, done: set<string>, sq: Squares, from: map<Pos, string>, key: string)
    requires ReadSoFar(parse, decode, fields, done, sq, from)
    requires key in fields && parse(key).Ok? && decode(fields[key]).Ok?
    ensures ReadSoFar(parse, decode, fields, done + {key}, sq[parse(key).value := decode(fields[key]).value],
                      from[parse(key).value := key])
  {
    var sq' := sq[parse(key).value := decode(fields[key]).value];
    forall k | k in done + {key}
      ensures parse(k).value in sq'
    {
      if k != key {
        assert parse(k).value in sq;
      }
    }
  }

  /** Once every entry is read, the board is what the adapter reads. */
  lemma ReadAll(fields: map<string, Json>, sq: Squares, from: map<Pos, string>)
    requires ReadSoFar(ParseKey, DecodePiece, fields, fields.Keys, sq, from)
    ensures BoardDecodes(JObj(fields)) && DecodesBoard(fields, sq)
  {
    forall p | p in sq
      ensures exists k :: k in fields && ParseKey(k) == Ok(p) && DecodePiece(fields[k]) == Ok(sq[p])
    {
      assert from[p] in fields;
    }
  }

  /** AdaptChessBoard.deserialize: a new empty board, then addPiece for each
      entry; the first unreadable key or piece aborts. */
  method DeserializeBoard(j: Json) returns (r: Result<ChessBoard, string>)
    ensures r.Ok? <==> BoardDecodes(j)
    ensures r.Ok? ==> fresh(r.value) && DecodesBoard(j.fields, r.value.squares)
  {
    if !j.JObj? {
      return Err("IllegalStateException");
    }
    var board := new ChessBoard();
    var rest := j.fields.Keys;
    ghost var done: set<string> := {};
    ghost var from: map<Pos, string> := map[];
    while rest != {}
      invariant rest + done == j.fields.Keys && rest !! done
      invariant fresh(board)
      invariant ReadSoFar(ParseKey, DecodePiece, j.fields, done, board.squares, from)
      decreases rest
    {
      var key :| key in rest;
      var pos := ParseKey(key);
      if pos.Err? {
        return Err(pos.error);
      }
      var piece := DecodePiece(j.fields[key]);
      if piece.Err? {
        return Err(piece.error);
      }
      ReadStep(ParseKey, DecodePiece, j.fields, done, board.squares, from, key);
      board.AddPiece(pos.value, piece.value);
      rest := rest - {key};
      done := done + {key};
      from := from[pos.value := key];
    }
    ReadAll(j.fields, board.squares, from);
    return Ok(board);
  }

  /** Every entry the board adapter writes can be read. */
  lemma EncodedBoardDecodes(fields: map<string, Json>, sq: Squares)
    requires EncodesBoard(fields, sq)
    requires forall p :: p in sq ==> Int32Coords(p)
    ensures BoardDecodes(JObj(fields))
  {
    forall k | k in fields
      ensures ParseKey(k).Ok? && DecodePiece(fields[k]).Ok?
    {
      var p :| p in sq && KeyOf(p) == k;
      KeyRoundTrip(p);
      PieceRoundTrip(sq[p]);
    }
  }

  /** The only key that reads as a written position is that position's key. */
  lemma EncodedKeyNames(fields: map<string, Json>, sq: Squares, k: string, p: Pos)
    requires EncodesBoard(fields, sq)
    requires forall p :: p in sq ==> Int32Coords(p)
    requires k in fields && ParseKey(k) == Ok(p)
    ensures p in sq && k == KeyOf(p)
  {
    var p' :| p' in sq && KeyOf(p') == k;
    KeyRoundTrip(p');
  }

  /** A written square is read back, holding what was written. */
  lemma DecodedKeepsSquare(fields: map<string, Json>, sq: Squares, sq2: Squares, p: Pos)
    requires EncodesBoard(fields, sq)
    requires forall p :: p in sq ==> Int32Coords(p)
    requires DecodesBoard(fields, sq2)
    requires p in sq
    ensures p in sq2 && sq2[p] == sq[p]
  {
    KeyRoundTrip(p);
    var key := KeyOf(p);
    assert key in fields && ParseKey(key) == Ok(p);
    var k :| k in fields && ParseKey(k) == Ok(p) && DecodePiece(fields[k]) == Ok(sq2[p]);
    EncodedKeyNames(fields, sq, k, p);
    PieceRoundTrip(sq[p]);
  }

  lemma DecodedKeepsSquares(fields: map<string, Json>, sq: Squares, sq2: Squares)
    requires EncodesBoard(fields, sq)
    requires forall p :: p in sq ==> Int32Coords(p)
    requires DecodesBoard(fields, sq2)
    ensures forall p :: p in sq ==> p in sq2 && sq2[p] == sq[p]
  {
    forall p | p in sq
      ensures p in sq2 && sq2[p] == sq[p]
    {
      DecodedKeepsSquare(fields, sq, sq2, p);
    }
  }

  /** Nothing is read back that was not written. */
  lemma DecodedAddsNothing(fields: map<string, Json>, sq: Squares, sq2: Squares)
    requires EncodesBoard(fields, sq)
    requires forall p :: p in sq ==> Int32Coords(p)
    requires DecodesBoard(fields, sq2)
    ensures forall p :: p in sq2 ==> p in sq
  {
    forall p | p in sq2
      ensures p in sq
    {
      var k :| k in fields && ParseKey(k) == Ok(p);
      EncodedKeyNames(fields, sq, k, p);
    }
  }

  lemma SameSquares(sq: Squares, sq2: Squares)
    requires forall p :: p in sq ==> p in sq2 && sq2[p] == sq[p]
    requires forall p :: p in sq2 ==> p in sq
    ensures sq2 == sq
  {
  }

  /** A board written by the adapter reads back, and reads back as the same
      raw map, null squares included. */
  lemma BoardRoundTrip(fields: map<string, Json>, sq: Squares, sq2: Squares)
    requires EncodesBoard(fields, sq)
    requires forall p :: p in sq ==> Int32Coords(p)
    ensures BoardDecodes(JObj(fields))
    ensures DecodesBoard(fields, sq2) ==> sq2 == sq
  {
    EncodedBoardDecodes(fields, sq);
    if DecodesBoard(fields, sq2) {
      DecodedKeepsSquares(fields, sq, sq2);
      DecodedAddsNothing(fields, sq, sq2);
      SameSquares(sq, sq2);
    }
  }

  // ---------------------------------------------------------------------
  // Games

  /** The object the game adapter writes, from its three parts. */
  function GameObject(board: Json, team: TeamColor, over: bool): (j: Json)
    ensures j.JObj? && j.fields.Keys == {"board", "teamTurn", "gameOver"}
    ensures j.fields["board"] == board && j.fields["teamTurn"] == JStr(ColorName(team))
    ensures j.fields["gameOver"] == JBool(over)
  {
    var fields := map["board" := board, "teamTurn" := JStr(ColorName(team)), "gameOver" := JBool(over)];
    assert fields.Keys == {"board", "teamTurn", "gameOver"};
    JObj(fields)
  }

  /** AdaptChessGame.serialize: the board as written before anything else,
      the side to move by name, and isGameOver() as the flag; `b` names the
      board part of the result. */
  method SerializeGame(game: ChessGame) returns (j: Json, ghost b: Json)
    modifies game.board
    ensures b.JObj? && EncodesBoard(b.fields, old(game.board.squares))
    ensures j == GameObject(b, game.turnTeam, GameOver(game.gameOver, old(game.board.Pieces())))
    ensures game.board.Pieces() == old(game.board.Pieces())
    ensures NullExtension(old(game.board.squares), game.board.squares)
  {
    var board := SerializeBoard(game.GetBoard());
    b := board;
    var over := game.IsGameOver();
    j := GameObject(board, game.GetTeamTurn(), over);
  }

  /** What the game adapter can read: an object with a readable board, a
      colour name for the side to move, and a flag readable as a boolean
      when one is present. */
  ghost predicate GameDecodes(j: Json)
  {
    && j.JObj?
    && "board" in j.fields && BoardDecodes(j.fields["board"])
    && "teamTurn" in j.fields && AsString(j.fields["teamTurn"]).Ok?
    && ColorValueOf(AsString(j.fields["teamTurn"]).value).Some?
    && ("gameOver" in j.fields ==> AsBoolean(j.fields["gameOver"]).Ok?)
  }

  /** AdaptChessGame.deserialize: a new game whose board, side to move and
      (when present) flag are replaced by the ones read; without a flag the
      game is not over. */
  method DeserializeGame(j: Json) returns (r: Result<ChessGame, string>)
    ensures r.Ok? <==> GameDecodes(j)
    ensures r.Ok? ==>
      && fresh(r.value) && fresh(r.value.board)
      && DecodesBoard(j.fields["board"].fields, r.value.board.squares)
      && r.value.turnTeam == ColorValueOf(AsString(j.fields["teamTurn"]).value).value
      && r.value.gameOver == ("gameOver" in j.fields && AsBoolean(j.fields["gameOver"]).value)
  {
    if !j.JObj? {
      return Err("IllegalStateException");
    }
    var game := new ChessGame();
    if "board" !in j.fields {
      return Err("NullPointerException");
    }
    var board := DeserializeBoard(j.fields["board"]);
    if board.Err? {
      return Err(board.error);
    }
    game.SetBoard(board.value);
    if "teamTurn" !in j.fields {
      return Err("NullPointerException");
    }
    var name := AsString(j.fields["teamTurn"]);
    if name.Err? {
      return Err(name.error);
    }
    var team := ColorValueOf(name.value);
    if team.None? {
      return Err("IllegalArgumentException");
    }
    game.SetTeamTurn(team.value);
    if "gameOver" in j.fields {
      var flag := AsBoolean(j.fields["gameOver"]);
      if flag.Err? {
        return Err(flag.error);
      }
      game.SetGameOver(flag.value);
    }
    return Ok(game);
  }

  /** What the game adapter reads from an object it wrote. */
  lemma GameObjectDecodes(b: Json, team: TeamColor, over: bool)
    requires BoardDecodes(b)
    ensures GameDecodes(GameObject(b, team, over))
    ensures ColorValueOf(AsString(GameObject(b, team, over).fields["teamTurn"]).value) == Some(team)
    ensures AsBoolean(GameObject(b, team, over).fields["gameOver"]) == Ok(over)
  {
  }

  /** Storing a game and loading it back: the copy has the same raw board and
      side to move, and its flag is the stored isGameOver(), so a game that had
      ended by checkmate or stalemate comes back marked over. */
  method SaveAndLoad(game: ChessGame) returns (copy: ChessGame)
    requires forall p :: p in game.board.squares ==> Int32Coords(p)
    modifies game.board
    ensures fresh(copy) && fresh(copy.board)
    ensures copy.board.squares == old(game.board.squares)
    ensures copy.turnTeam == game.turnTeam
    ensures copy.gameOver == GameOver(game.gameOver, old(game.board.Pieces()))
  {
    ghost var sq := game.board.squares;
    ghost var over := GameOver(game.gameOver, game.board.Pieces());
    var j, b := SerializeGame(game);
    BoardRoundTrip(b.fields, sq, sq);
    GameObjectDecodes(b, game.turnTeam, over);
    var r := DeserializeGame(j);
    BoardRoundTrip(b.fields, sq, r.value.board.squares);
    copy := r.value;
  }

  // ---------------------------------------------------------------------
  // Positions

  /** AdaptChessPosition.serialize: an object with exactly "row" and
      "column", each a number whose int value is that coordinate's. */
  function SerializePosition(p: Pos): (j: Json)
    ensures j.JObj? && j.fields.Keys == {"row", "column"}
    ensures AsInt(j.fields["row"]) == Ok(Wrap32(p.row)) && AsInt(j.fields["column"]) == Ok(Wrap32(p.col))
  {
    JObj(map["row" := JNum(p.row), "column" := JNum(p.col)])
  }

  /** AdaptChessPosition.deserialize: "row", then "column", each by getAsInt. */
  function DeserializePosition(j: Json): (r: Result<Pos, string>)
    ensures r.Ok? ==> Int32Coords(r.value)
    ensures r.Ok? <==> j.JObj? && "row" in j.fields && "column" in j.fields
                       && AsInt(j.fields["row"]).Ok? && AsInt(j.fields["column"]).Ok?
  {
    if !j.JObj? then Err("IllegalStateException")
    else if "row" !in j.fields then Err("NullPointerException")
    else if AsInt(j.fields["row"]).Err? then Err(AsInt(j.fields["row"]).error)
    else if "column" !in j.fields then Err("NullPointerException")
    else if AsInt(j.fields["column"]).Err? then Err(AsInt(j.fields["column"]).error)
    else Ok(Pos(AsInt(j.fields["row"]).value as int, AsInt(j.fields["column"]).value as int))
  }

  /** A position read back is the written one, each coordinate cut to an int. */
  lemma PositionRoundTrip(p: Pos)
    ensures DeserializePosition(SerializePosition(p)) == Ok(Pos(Wrap32(p.row) as int, Wrap32(p.col) as int))
    ensures Int32Coords(p) ==> DeserializePosition(SerializePosition(p)) == Ok(p)
  {
  }
}
