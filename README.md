# Chess server core, modelled in Dafny

This project models three parts of a small chess server:

- **The chess rule engine.** The board is a sparse map from position to piece. Each piece type generates its pseudo-legal moves. The game filters those moves through a check test by simulating each move on the board and reverting it. The game also implements `makeMove`, with its error cases, promotion and turn flip, plus the check, checkmate, stalemate and game-over tests.
- **The in-memory store and the services over it.** The store holds users, games and authorisations, plus a game-id counter. The game service creates, joins and lists games. The user service registers users and logs them in and out.
- **The JSON adapters** that write a game, its board and a position into the database text column and read them back.

## How the model is organised

- `wrappers.dfy`: `Option`, `Outcome` (`Pass` or `Fail(error)`, for a `void` method that may throw) and `Result`.
- `chess_types.dfy`: colours, piece types, pieces, positions and moves.
  - These are datatypes with structural equality, which is what `ChessPiece.equals` and the positions' and moves' equality amount to.
  - `Pieces` is the board as `getPiece` sees it.
- `chess_board.dfy`: the class `ChessBoard` over a raw `map<Pos, Option<ChessPiece>>`.
  - `None` is a Java `null` stored as a value.
  - `Pieces()` is the view with those null entries dropped.
  - The standard layout is a function with its shape proved.
- `chess_piece.dfy`: each piece's move rule as a function of the view, and the source's move generators as methods.
  - The methods are `addKingMove`, `addRookMove`, `addBishopMove`, `addKnightMove`, `addPawnMove`, `addMovesInDirection` and `pieceMoves`.
  - Each method is proved to append exactly the moves its function lists.
- `chess_game.dfy`: the class `ChessGame`.
  - Check, legality, checkmate, stalemate and the outcome of a move are ghost functions of the view.
  - The methods simulate and revert moves on the mutable board as the source does. They are proved to compute those functions and to leave the view unchanged.
- `records.dfy`: the Java `int` (`Int32`, with the wrap-around of `+ 1`), and the `UserData`, `AuthData` and `GameData` records.
- `store.dfy`: the class `AccessDataInMemory`.
- `services.dfy`: the `GameService` and `UserService` classes.
  - Each validation chain is a pure function that gives the first error in the source's order.
  - The methods are proved to agree with those functions.
- `text.dfy`: the Java string operations the server relies on: `String.valueOf(int)`, `Integer.parseInt` on ASCII digits, `split(",")` and ASCII case mapping.
- `adapters.dfy`: Gson's `JsonElement` (without arrays) as a datatype, and the three adapters.
  - It proves the key round trip `"row,col"`.
  - It proves that a written board reads back to the same position-to-piece entries.
  - It proves that a written game reads back with the same board, turn and computed game-over flag.

## Model

| member | source | states |
|---|---|---|
| ChessTypes.ColorValueOfName | shared/src/main/java/chess/ChessGame.java:43-46 | `TeamColor.valueOf(s)` yields a colour exactly when `s` is that colour's name |
| ChessTypes.TypeValueOfName | shared/src/main/java/chess/ChessPiece.java:47-54 | `PieceType.valueOf(s)` yields a type exactly when `s` is that type's name |
| ChessTypes.FirstKey | shared/src/main/java/chess/ChessGame.java:122-128 | the first square in row-major order of a non-empty set of squares is in the set and precedes every other square |
| Board.NullEntryChangesEquality | shared/src/main/java/chess/ChessBoard.java:19-26 | mapping an absent square to null makes the raw map (what `equals` compares) differ, while `getPiece` sees no change |
| Board.NullEntryBreaksEquals | shared/src/main/java/chess/ChessBoard.java:19-26 | two boards that differ only by a key mapped to null read the same everywhere, yet neither `equals` the other |
| Board.NormalizeUpdate | shared/src/main/java/chess/ChessBoard.java:46-48 | writing a piece puts it in the view; writing null removes the square from the view |
| Board.PlaceSideAt | shared/src/main/java/chess/ChessBoard.java:102-114 | `startingPieces` adds exactly files 1..8 of its two rows: the back-rank order on one and pawns on the other; every other square is unchanged |
| Board.ResetSquaresAt | shared/src/main/java/chess/ChessBoard.java:82-86 | `resetBoard` adds exactly the 32 layout squares, each holding its layout piece; every other square is unchanged |
| Board.RowSquaresAt | shared/src/main/java/chess/ChessBoard.java:102-114 | a row has exactly eight squares, files 1 to 8 |
| Board.LayoutSquaresCount | shared/src/main/java/chess/ChessBoard.java:82-86 | the layout covers exactly 32 squares |
| Board.StandardLayoutShape | shared/src/main/java/chess/ChessBoard.java:82-86 | the opening layout: rook, knight, bishop, queen, king, bishop, knight, rook on rows 1 (WHITE) and 8 (BLACK); pawns on rows 2 and 7; rows 3 to 6 empty; 32 pieces |
| Board.ResetEmptyBoard | shared/src/main/java/chess/ChessBoard.java:15-17 | resetting a freshly constructed (empty) board gives exactly the standard layout, with no null entries |
| Board.ChessBoard.constructor | shared/src/main/java/chess/ChessBoard.java:15-17 | a new board is empty |
| Board.ChessBoard.GetPiece | shared/src/main/java/chess/ChessBoard.java:57-59 | the piece at a square, or null also when the key maps to null |
| Board.ChessBoard.Equals | shared/src/main/java/chess/ChessBoard.java:19-26 | `equals` compares the raw maps; equal boards read the same at every square |
| Board.ChessBoard.AddPiece | shared/src/main/java/chess/ChessBoard.java:46-48 | afterwards `getPiece(p)` is the piece written (possibly null), and every other square reads as before |
| Board.ChessBoard.RemovePiece | shared/src/main/java/chess/ChessBoard.java:66-68 | afterwards `getPiece(p)` is null and every other square reads as before |
| Board.ChessBoard.ClearEmptySpace | shared/src/main/java/chess/ChessBoard.java:75-77 | removes exactly the null-valued entries; `getPiece` is unchanged everywhere |
| Board.ChessBoard.StartingPieces | shared/src/main/java/chess/ChessBoard.java:102-114 | places one side's back rank and pawns, as `PlaceSideAt` describes |
| Board.ChessBoard.ResetBoard | shared/src/main/java/chess/ChessBoard.java:82-86 | places both sides, as `ResetSquaresAt` describes |
| Moves.StepsMembers | shared/src/main/java/chess/ChessPiece.java:109-123 | a fixed-offset generator lists exactly the offset squares that are on the board and empty or enemy-held, at most one move per offset |
| Moves.KingMovesExactly | shared/src/main/java/chess/ChessPiece.java:109-123 | king moves are exactly the adjacent on-board squares that are empty or enemy-held, with no promotion; at most 8 |
| Moves.KnightMovesExactly | shared/src/main/java/chess/ChessPiece.java:142-153 | knight moves are exactly the (2,1)/(1,2) jumps onto on-board squares that are empty or enemy-held, with no promotion; at most 8 |
| Moves.RayElements | shared/src/main/java/chess/ChessPiece.java:189-206 | a ray lists consecutive on-board squares along its direction, none holding an own piece; every square but the last is empty |
| Moves.RayStops | shared/src/main/java/chess/ChessPiece.java:189-206 | a ray ends after an enemy, at the edge, before an own piece, or after 8 steps |
| Moves.RaysMembers | shared/src/main/java/chess/ChessPiece.java:124-141 | a rook's or bishop's move list holds exactly the moves on the rays of its directions |
| Moves.RaysMovesShape | shared/src/main/java/chess/ChessPiece.java:124-141 | sliding moves start on the piece's square, end on another board square, never capture their own colour and carry no promotion |
| Moves.LandingMembers | shared/src/main/java/chess/ChessPiece.java:158-164 | the moves onto a pawn's landing square are exactly those obeying the promotion rule: one per promotion type (QUEEN, BISHOP, ROOK, KNIGHT) on the last row, otherwise one with no promotion |
| Moves.PushMembers | shared/src/main/java/chess/ChessPiece.java:155-165 | a single push goes one row forward (+1 for WHITE, -1 for BLACK), onto an empty on-board square |
| Moves.DoublePushMembers | shared/src/main/java/chess/ChessPiece.java:166-171 | a double push goes only from row 2 (WHITE) or row 7 (BLACK), across two empty squares |
| Moves.CaptureMembers | shared/src/main/java/chess/ChessPiece.java:172-186 | a diagonal move lands only on an on-board enemy-held square |
| Moves.PawnMovesExactly | shared/src/main/java/chess/ChessPiece.java:154-188 | pawn moves are exactly the pushes, double pushes and captures, each following the promotion rule |
| Moves.QueenMovesExactly | shared/src/main/java/chess/ChessPiece.java:84-87 | the queen's moves are exactly the moves on its rays in the eight rook and bishop directions |
| Moves.MovesShape | shared/src/main/java/chess/ChessPiece.java:77-107 | every generated move starts on the piece's square, ends elsewhere, on the board (for a pawn, when it stands on the board), and never on a piece of the mover's colour; only pawns carry promotions, by the promotion rule |
| Moves.MovesDependOnColorsOnly | shared/src/main/java/chess/ChessPiece.java:77-103 | the generated moves depend only on which squares are occupied and by which colour |
| Moves.AddKingMove | shared/src/main/java/chess/ChessPiece.java:109-123 | the nested delta loops append exactly the king's moves |
| Moves.AddRookMove | shared/src/main/java/chess/ChessPiece.java:124-133 | appends exactly the four orthogonal rays |
| Moves.AddBishopMove | shared/src/main/java/chess/ChessPiece.java:134-141 | appends exactly the four diagonal rays |
| Moves.AddKnightMove | shared/src/main/java/chess/ChessPiece.java:142-153 | the offset loop appends exactly the knight's moves |
| Moves.AddPawnMove | shared/src/main/java/chess/ChessPiece.java:154-188 | appends exactly the pawn's pushes, double push and captures with their promotion copies |
| Moves.AddMovesInDirection | shared/src/main/java/chess/ChessPiece.java:189-206 | the counted loop with its early exits appends exactly one ray |
| Moves.PieceMoves | shared/src/main/java/chess/ChessPiece.java:77-103 | `pieceMoves` returns exactly the pseudo-legal moves for the piece's type |
| Game.FirstKingUnique | shared/src/main/java/chess/ChessGame.java:122-128 | the king the search settles on is unique |
| Game.InCheckWithOneKing | shared/src/main/java/chess/ChessGame.java:119-140 | with a single king, being in check means some opponent piece's moves end on that king's square |
| Game.NoKingNoCheck | shared/src/main/java/chess/ChessGame.java:129-139 | a side without a king is never in check |
| Game.InCheckDependsOn | shared/src/main/java/chess/ChessGame.java:119-140 | check depends only on the occupancy, the colours, the side's kings and the opponent's pieces |
| Game.LegalFilterMembers | shared/src/main/java/chess/ChessGame.java:62-72 | the filter keeps exactly the candidates after which the mover is not in check |
| Game.ValidMovesExactly | shared/src/main/java/chess/ChessGame.java:55-74 | `validMoves` is null exactly on an empty square; otherwise it holds exactly the pseudo-legal moves after which the mover is not in check |
| Game.LegalMovesShape | shared/src/main/java/chess/ChessGame.java:60-73 | legal moves are pseudo-legal: they start on the square, end elsewhere and never land on a piece of the mover's colour |
| Game.AfterMoveIsSimulation | shared/src/main/java/chess/ChessGame.java:97-102 | the board after a legal move matches the simulated one in colours, kings and the opponent's pieces |
| Game.MoveNeverResultsInCheck | shared/src/main/java/chess/ChessGame.java:104-107 | the "Move results in Check" rollback is never taken |
| Game.SuccessfulMove | shared/src/main/java/chess/ChessGame.java:97-110 | after a successful move: the start is empty; the end holds the piece (a pawn reaching its last row holds the promotion piece); every other square is unchanged; the mover is not in check |
| Game.CheckmateMeans | shared/src/main/java/chess/ChessGame.java:148-197 | checkmate means in check with no legal move; stalemate implies not in check; the two never hold together |
| Game.EscapeExists | shared/src/main/java/chess/ChessGame.java:156-168 | a piece with a legal move has a replay that leaves its side out of check |
| Game.NullExtensionTrans | shared/src/main/java/chess/ChessGame.java:64-71 | adding null entries twice is adding null entries |
| Game.RevertedIsNullExtension | shared/src/main/java/chess/ChessGame.java:70-71 | a revert leaves the old entries and at most one new null entry, so `getPiece` is unchanged |
| Game.RollbackSquares | shared/src/main/java/chess/ChessGame.java:64-71 | putting the piece back and the captured value back restores the raw map up to the one null entry |
| Game.ChessGame.constructor | shared/src/main/java/chess/ChessGame.java:18-22 | a new game has the standard board, WHITE to move and the flag false |
| Game.ChessGame.SetTeamTurn | shared/src/main/java/chess/ChessGame.java:36-38 | sets only the side to move |
| Game.ChessGame.SetBoard | shared/src/main/java/chess/ChessGame.java:204-206 | sets only the board |
| Game.ChessGame.SetGameOver | shared/src/main/java/chess/ChessGame.java:217-219 | sets only the game-over flag |
| Game.ChessGame.IsInCheck | shared/src/main/java/chess/ChessGame.java:119-140 | the first king of the colour is found, then every opponent piece's moves are searched for that square |
| Game.ChessGame.ValidMoves | shared/src/main/java/chess/ChessGame.java:55-74 | returns the legal moves (null on an empty square); afterwards the view is unchanged and the raw map only gains null entries |
| Game.ChessGame.PlaceMove | shared/src/main/java/chess/ChessGame.java:97-102 | the move, with promotion, as on the board |
| Game.ChessGame.MakeMove | shared/src/main/java/chess/ChessGame.java:82-111 | the outcome is the first error in the source's order, or success. On success the board is the move's result with no null entries, and the turn flips. On failure the view and the turn are unchanged |
| Game.ChessGame.TryEscapes | shared/src/main/java/chess/ChessGame.java:157-168 | reports whether some listed move takes the side out of check, and restores the view |
| Game.ChessGame.IsInCheckmate | shared/src/main/java/chess/ChessGame.java:148-173 | exactly: in check with no legal move for any piece of the colour; the view is unchanged |
| Game.ChessGame.IsInStalemate | shared/src/main/java/chess/ChessGame.java:182-197 | exactly: not in check and no piece of the colour with a legal move; the view is unchanged |
| Game.ChessGame.IsGameOver | shared/src/main/java/chess/ChessGame.java:221-224 | the flag, or checkmate or stalemate of either side |
| Records.Inc32 | server/src/main/java/dataaccess/AccessDataInMemory.java:21-23 | Java `int` increment: one more, wrapping from the largest to the smallest value |
| Store.AccessDataInMemory.constructor | server/src/main/java/dataaccess/AccessDataInMemory.java:7-10 | empty tables, counter 1 |
| Store.AccessDataInMemory.Clear | server/src/main/java/dataaccess/AccessDataInMemory.java:13-18 | empties the three tables and resets the counter to 1 |
| Store.AccessDataInMemory.CreateGameID | server/src/main/java/dataaccess/AccessDataInMemory.java:21-23 | returns the counter, then increments it |
| Store.AccessDataInMemory.CreateUser | server/src/main/java/dataaccess/AccessDataInMemory.java:26-35 | a taken name fails with "User already exists" and changes nothing; otherwise `getUser` returns the user |
| Store.AccessDataInMemory.GetUser | server/src/main/java/dataaccess/AccessDataInMemory.java:33-35 | a user is returned exactly for a stored name, and it is the user with that name |
| Store.AccessDataInMemory.CreateGame | server/src/main/java/dataaccess/AccessDataInMemory.java:38-45 | files the game under its id and increments the counter again |
| Store.AccessDataInMemory.GetGame | server/src/main/java/dataaccess/AccessDataInMemory.java:43-45 | a game is returned exactly for a stored id, and it is the game with that id |
| Store.AccessDataInMemory.ListOfGames | server/src/main/java/dataaccess/AccessDataInMemory.java:47-49 | every stored game exactly once |
| Store.AccessDataInMemory.UpdateGame | server/src/main/java/dataaccess/AccessDataInMemory.java:51-56 | an unknown id fails with "Game not found" and changes nothing; otherwise only that entry is replaced |
| Store.AccessDataInMemory.CreateAuthorization | server/src/main/java/dataaccess/AccessDataInMemory.java:58-64 | files the token, overwriting any entry for it |
| Store.AccessDataInMemory.GetAuthorization | server/src/main/java/dataaccess/AccessDataInMemory.java:62-64 | an authorisation is returned exactly for a stored token, and it carries that token |
| Store.AccessDataInMemory.DeleteAuthorization | server/src/main/java/dataaccess/AccessDataInMemory.java:66-71 | an unknown token fails with "Authorization token not found"; otherwise only that token is removed |
| Text.ToUpperIdempotent | server/src/main/java/service/GameService.java:55 | upper-casing twice is upper-casing once |
| Text.DigitsRoundTrip | server/src/main/java/dataaccess/MySQLDataAccess.java:84-85 | reading back the printed digits of a number gives the number |
| Text.ParseIntToString | server/src/main/java/dataaccess/MySQLDataAccess.java:97-99 | `Integer.parseInt(String.valueOf(n)) == n` for every `int` |
| Text.IntToStringInjective | server/src/main/java/dataaccess/MySQLDataAccess.java:84-85 | distinct integers print differently |
| Text.SplitPair | server/src/main/java/dataaccess/MySQLDataAccess.java:97 | splitting `a + "," + b` with comma-free fields and a non-empty `b` gives `[a, b]` |
| Services.ParseColorIgnoresCase | server/src/main/java/service/GameService.java:55 | the colour is matched ignoring case |
| Services.GetGameData | server/src/main/java/service/GameService.java:77-98 | fails exactly on an unknown colour ("Bad Request") or an occupied chosen seat ("Already taken"); on success the id, name and game are kept, the chosen seat holds the caller and the other seat is unchanged |
| Services.JoinChangesOneSeat | server/src/main/java/service/GameService.java:36-75 | a successful join names a valid id and a colour, keeps the id, name and game, and claims only the free chosen seat |
| Services.GameService.constructor | server/src/main/java/service/GameService.java:12-14 | the service uses the given store |
| Services.GameService.Clear | server/src/main/java/service/GameService.java:15-17 | the store is cleared, so every stored id (none) was issued by the counter |
| Services.GameService.CreateGame | server/src/main/java/service/GameService.java:21-32 | "Unauthorized" before "Bad Request", with nothing created. On success the counter's id is returned and holds a game with both seats empty, the given name and a new game; the counter advances twice. While every stored id was issued by the counter, the returned id is not already stored, and that stays so until the counter wraps |
| Services.GameService.JoinGame | server/src/main/java/service/GameService.java:36-75 | the result follows the join chain (id, token, game, colour, seat); only a success updates the store, and then only that game; ids stay issued by the counter |
| Services.GameService.ListGames | server/src/main/java/service/GameService.java:103-110 | succeeds exactly for a known token, with every stored game exactly once; an unknown token is "Unauthorized" |
| Services.RegisterErrorCases | server/src/main/java/service/UserService.java:20-32 | registering fails exactly when a field is missing or the name is taken; a missing field is "Error: bad request" |
| Services.CheckRegistration | server/src/main/java/service/UserService.java:28-32 | passes exactly when username, password and email are all present; otherwise "Error: bad request" |
| Services.LoginCredentials | server/src/main/java/service/UserService.java:40-44 | passes exactly when the user exists and the given password equals its password; otherwise "Error: unauthorized" |
| Services.IsAuthorized | server/src/main/java/service/UserService.java:50-54 | passes exactly when the token was found; otherwise "Error: unauthorized" |
| Services.UserService.constructor | server/src/main/java/service/UserService.java:11-13 | the service uses the given store |
| Services.UserService.Register | server/src/main/java/service/UserService.java:20-32 | on error nothing is stored; on success the user is stored, the token maps to the name, and (token, name) is returned |
| Services.UserService.Login | server/src/main/java/service/UserService.java:33-44 | a missing user or a wrong password is "Error: unauthorized"; otherwise a new token maps to the name |
| Services.UserService.Logout | server/src/main/java/service/UserService.java:45-54 | an unknown token is "Error: unauthorized"; otherwise only that token is removed |
| Services.RegisterTwice | server/src/main/java/service/UserService.java:20-27 | registering the same request twice fails the second time |
| Services.LogoutTwice | server/src/main/java/service/UserService.java:45-54 | a second logout with the same token fails |
| Services.RegisterThenLogin | server/src/main/java/service/UserService.java:20-44 | a new user can log in with the registered password and gets a token for that name |
| Services.SuccessiveGameIds | server/src/main/java/service/GameService.java:21-32 | two successive successful creations return ids two apart |
| Adapters.Wrap32 | server/src/main/java/dataaccess/MySQLDataAccess.java:113-114 | the int value of a number: congruent modulo 2^32, and the number itself when it fits |
| Adapters.AsBoolean | server/src/main/java/dataaccess/MySQLDataAccess.java:70-72 | `getAsBoolean` fails only on null and objects; a string reads as true iff it is "true" ignoring case |
| Adapters.AsInt | server/src/main/java/dataaccess/MySQLDataAccess.java:113-114 | `getAsInt` succeeds exactly on numbers and on strings `parseInt` accepts when written in ASCII digits |
| Adapters.KeyRoundTrip | server/src/main/java/dataaccess/MySQLDataAccess.java:84-85 | splitting and parsing the key `"r,c"` gives back (r, c) |
| Adapters.KeyOfInjective | server/src/main/java/dataaccess/MySQLDataAccess.java:84-86 | different squares get different keys, so no entry overwrites another |
| Adapters.PieceRoundTrip | server/src/main/java/dataaccess/MySQLDataAccess.java:86 | a piece (or null) written and read back is itself |
| Adapters.DecodePieceReads | server/src/main/java/dataaccess/MySQLDataAccess.java:100 | a decoded piece is null exactly for JSON null; otherwise it comes from its color and type fields |
| Adapters.SerializeBoard | server/src/main/java/dataaccess/MySQLDataAccess.java:80-89 | the object holds exactly one key per square, with that square's piece (or null) |
| Adapters.DeserializeBoard | server/src/main/java/dataaccess/MySQLDataAccess.java:92-104 | succeeds exactly when every key parses (ASCII digits) and every value decodes; the new board has a square exactly for each key's position, holding the piece of a key that names it |
| Adapters.EncodedBoardDecodes | server/src/main/java/dataaccess/MySQLDataAccess.java:92-104 | a written board is readable |
| Adapters.DecodedKeepsSquares | server/src/main/java/dataaccess/MySQLDataAccess.java:95-103 | every written square reads back with its piece |
| Adapters.DecodedAddsNothing | server/src/main/java/dataaccess/MySQLDataAccess.java:95-103 | reading back adds no square that was not written |
| Adapters.BoardRoundTrip | server/src/main/java/dataaccess/MySQLDataAccess.java:80-104 | a written board reads back to exactly the same position-to-piece entries, null entries included |
| Adapters.SerializeGame | server/src/main/java/dataaccess/MySQLDataAccess.java:53-61 | the object holds exactly the board, the turn's name and the computed `isGameOver()`; afterwards `getPiece` is unchanged |
| Adapters.DeserializeGame | server/src/main/java/dataaccess/MySQLDataAccess.java:64-74 | succeeds exactly on objects with a readable board and turn (and flag, if present); restores the board, the turn by `valueOf` and, when present, the flag; otherwise the flag is false |
| Adapters.GameObjectDecodes | server/src/main/java/dataaccess/MySQLDataAccess.java:55-72 | a written game is readable, with the same turn and flag |
| Adapters.SaveAndLoad | server/src/main/java/dataaccess/MySQLDataAccess.java:53-74 | a stored game loads back with the same raw board and turn, and has the flag set when the game was over |
| Adapters.DeserializePosition | server/src/main/java/dataaccess/MySQLDataAccess.java:110-116 | reads "row" then "column" by `getAsInt`; succeeds exactly when both are present and readable |
| Adapters.SerializePosition | server/src/main/java/dataaccess/MySQLDataAccess.java:118-125 | the object has exactly the members "row" and "column", each read back by `getAsInt` as that coordinate's int value |
| Adapters.PositionRoundTrip | server/src/main/java/dataaccess/MySQLDataAccess.java:108-125 | a position written and read back is itself, with each coordinate cut to an `int` |

## Left out

- ChessTypes.FirstKey: `isInCheck`'s king search follows `HashMap` iteration order, which depends on `ChessPosition.hashCode`. `ChessPosition.hashCode` is not part of this model, so the order is fixed as row-major. It matters only when a colour has two or more kings. The other map loops are order-independent and use an arbitrary choice.
- Game.ChessGame.MakeMove: the source, for a pawn reaching row 1 or 8 with a null promotion, places a piece with a null type. That can only happen for a pawn standing off the board (row 0 or 9). The model keeps the pawn there. `SuccessfulMove` proves that every on-board pawn move onto its last row carries a promotion type.
- Game.ChessGame.GetTeamTurn and Game.ChessGame.GetBoard: plain reads, modelled as functions without contracts. `ChessBoard.getBoard` is the `squares` field.
- Text.ToUpper: `toUpperCase` and `equalsIgnoreCase` are modelled on ASCII letters only. Unicode case mapping has no model here.
- Adapters: Gson's text encoding is abstract.
  - There are no JSON arrays. Gson's `getAsString`, `getAsInt` and `getAsBoolean` also read a one-element array's element; the model does not.
  - A JSON number is an integer; floating-point numbers are not modelled.
  - `toJson`'s dropping of null members is not modelled.
  - Object members are read in an arbitrary order, so which error a malformed object reports first, and which of several keys naming one square wins, may differ from Gson's.
- Adapters.DecodePiece: a piece object with a missing or unknown `color` or `type` is an error. Gson's reflection would build a piece with null fields, which is not modelled.
- Adapters.DeserializeGame: a missing or JSON-null `board` member is an error. The source would install a null board (Gson's board adapter is not called for null); null boards are not modelled.
- Text.ParseInt: only ASCII digits are read. `Integer.parseInt` accepts any Unicode decimal digit (through `Character.digit`), so a string such as "١" parses in Java but not here. This affects the two members below.
- Adapters.AsInt: a string written with non-ASCII decimal digits fails, where `getAsInt` would parse it, because `Text.ParseInt` reads ASCII digits only.
- Adapters.DeserializeBoard: when several keys name one square (such as "1,1" and "01,1", or "1,1" and "1,1,"), the model keeps the piece of any one of them. The source reads the members in insertion order, so the last one wins. Boards the model writes never have two such keys (`KeyOfInjective`).
- Adapters.DeserializeBoard: a key written with non-ASCII decimal digits, such as "١,٢", is rejected, where the source reads it as (1, 2), because `Text.ParseInt` reads ASCII digits only. Keys the model writes are always ASCII.
- Adapters.SerializeGame: the board part of the result is a ghost out-parameter.
- Adapters.SaveAndLoad: a composition of the two game adapters, not a source method.
- Services.GameService.CreateGame: fresh ids are promised only while every stored id was issued by the counter (`IdsIssued`). Each game moves the counter twice (`createGameID`, then the store's `createGame`), so the ids are 1, 3, 5, ...; the counter wraps from the largest `int` to the smallest after 2^31 - 2 increments (about 2^30 games), after which the source may overwrite an old game. Games filed by calling the store's `createGame` directly, with ids of the caller's choosing, can also break the condition.
- Services.UserService.Register and Services.UserService.Login: `UUID.randomUUID()` becomes the `authToken` parameter.
- Request tokens are plain strings. A null token behaves as an unknown one, since the store never holds a null key.
- The MySQL store is not part of this model: JDBC, SQL and `DatabaseManager`. Neither are the websocket handler, the HTTP server and its status codes, or the client.
- ChessTypes.IsValidPosition: a plain predicate (row and column both in 1..8) with no contract of its own. What it guarantees about the generated moves is stated by `Moves.MovesShape`, `Moves.RaysMovesShape` and the king, knight and pawn lemmas.
- `hashCode` and `toString` of the entities are not modelled.
- Castling, en passant and draw rules are absent from the source and are not added.
