/** GameService and UserService over the in-memory store. Each validation
    chain is a pure function giving the first error in the source's order;
    the service methods run the same chain against the store and are proved
    to agree with it. A thrown DataAccessException is an `Err`/`Fail`
    carrying its message. */
module Services {

  import opened Wrappers
  import opened ChessTypes
  import opened Board
  import opened Game
  import opened Records
  import opened Store
  import opened Text

  // ---------------------------------------------------------------------
  // Colour names

  /** TeamColor.valueOf(s.toUpperCase()): the colour named, ignoring case; None for any other name. */
  function ParseColor(s: string): Option<TeamColor>
  {
    ColorValueOf(ToUpper(s))
  }

  /** The colour is matched case-insensitively: only the upper-cased string matters. */
  lemma ParseColorIgnoresCase(s: string, t: string)
    requires ToUpper(s) == ToUpper(t)
    ensures ParseColor(s) == ParseColor(t)
    ensures ParseColor(s) == ParseColor(ToUpper(s))
  {
    ToUpperIdempotent(s);
  }

  // ---------------------------------------------------------------------
  // GameService

  datatype CreateGameRequest = CreateGameRequest(authToken: string, gameName: Option<string>)
  datatype JoinRequest = JoinRequest(authToken: string, playerColor: Option<string>, gameID: Int32)
  datatype ListGamesRequest = ListGamesRequest(authToken: string)

  /** createGame's checks: the token first, then the name. */
  function CreateGameError(tokens: map<string, AuthData>, request: CreateGameRequest): Option<string>
  {
    if request.authToken !in tokens then Some("Unauthorized")
    else if request.gameName == None || request.gameName.value == "" then Some("Bad Request")
    else None
  }

  /** The player in the seat of colour `c`. */
  function Seat(game: GameData, c: TeamColor): Option<string>
  {
    match c
    case WHITE => game.whiteUsername
    case BLACK => game.blackUsername
  }

  /** getGameData: claim the seat named by `playerColor` for `username`. It
      fails exactly when the colour is unknown ("Bad Request") or that seat is
      occupied ("Already taken"); on success the id, the name and the game are
      kept, the chosen seat holds `username` and the other seat is unchanged. */
  function GetGameData(playerColor: string, game: GameData, username: string): (r: Result<GameData, string>)
    ensures r.Err? <==> ParseColor(playerColor) == None || Seat(game, ParseColor(playerColor).value).Some?
    ensures r.Err? ==> r.error == if ParseColor(playerColor) == None then "Bad Request" else "Already taken"
    ensures r.Ok? ==>
      var c := ParseColor(playerColor).value;
      && r.value.gameID == game.gameID && r.value.gameName == game.gameName && r.value.game == game.game
      && Seat(r.value, c) == Some(username) && Seat(r.value, Opponent(c)) == Seat(game, Opponent(c))
  {
    var teamColor := ParseColor(playerColor);
    if teamColor == None then Err("Bad Request")
    else if teamColor.value == WHITE then
      if game.whiteUsername != None then Err("Already taken")
      else Ok(GameData(game.gameID, Some(username), game.blackUsername, game.gameName, game.game))
    else
      if game.blackUsername != None then Err("Already taken")
      else Ok(GameData(game.gameID, game.whiteUsername, Some(username), game.gameName, game.game))
  }

  /** joinGame's chain: the id, the token, the game, the colour, then the seat. */
  function JoinOutcome(tokens: map<string, AuthData>, games: map<Int32, GameData>, request: JoinRequest): Result<GameData, string>
  {
    if request.gameID <= 0 then Err("Bad Request")
    else if request.authToken !in tokens then Err("Unauthorized")
    else if request.gameID !in games then Err("Game not found")
    else if request.playerColor == None || request.playerColor.value == "" then Err("Bad Request")
    else GetGameData(request.playerColor.value, games[request.gameID], tokens[request.authToken].username)
  }

  /** A successful join changes only the chosen seat, to the caller's name,
      and only when the request named that colour and the seat was free. */
  lemma JoinChangesOneSeat(tokens: map<string, AuthData>, games: map<Int32, GameData>, request: JoinRequest)
    requires JoinOutcome(tokens, games, request).Ok?
    ensures var g := games[request.gameID];
      var g2 := JoinOutcome(tokens, games, request).value;
      var name := tokens[request.authToken].username;
      && request.gameID > 0 && request.playerColor.Some?
      && g2.gameID == g.gameID && g2.gameName == g.gameName && g2.game == g.game
      && ((ParseColor(request.playerColor.value) == Some(WHITE) && g.whiteUsername == None &&
           g2.whiteUsername == Some(name) && g2.blackUsername == g.blackUsername) ||
          (ParseColor(request.playerColor.value) == Some(BLACK) && g.blackUsername == None &&
           g2.blackUsername == Some(name) && g2.whiteUsername == g.whiteUsername))
  {
    var c := ParseColor(request.playerColor.value);
    assert c.Some?;
  }

  class GameService {
    const dataAccess: AccessDataInMemory

    constructor(dataAccess: AccessDataInMemory)
      ensures this.dataAccess == dataAccess
    {
      this.dataAccess := dataAccess;
    }

    method Clear()
      modifies dataAccess
      ensures dataAccess.Valid() && dataAccess.IdsIssued()
      ensures dataAccess.users == map[] && dataAccess.games == map[] && dataAccess.authTokens == map[]
      ensures dataAccess.nextGameId == 1
    {
      dataAccess.Clear();
    }

    /** createGame: on success a new game with empty seats and a fresh
        ChessGame is filed under the id the counter gave, and the counter has
        moved on twice; on any error nothing changes. While every stored id
        was issued by the counter, the new id is not one of them, and ids stay
        issued by the counter as long as it does not wrap. */
    method CreateGame(request: CreateGameRequest) returns (r: Result<Int32, string>)
      requires dataAccess.Valid()
      modifies dataAccess
      ensures dataAccess.Valid()
      ensures var e := CreateGameError(old(dataAccess.authTokens), request);
        if e.Some? then
          && r == Err(e.value)
          && dataAccess.games == old(dataAccess.games) && dataAccess.nextGameId == old(dataAccess.nextGameId)
        else
          && r == Ok(old(dataAccess.nextGameId))
          && r.value in dataAccess.games
          && dataAccess.games == old(dataAccess.games)[r.value := dataAccess.games[r.value]]
          && dataAccess.nextGameId == Inc32(Inc32(old(dataAccess.nextGameId)))
      ensures r.Ok? ==>
        var g := dataAccess.games[r.value];
        && g.gameID == r.value && g.whiteUsername == None && g.blackUsername == None
        && Some(g.gameName) == request.gameName
        && fresh(g.game) && fresh(g.game.board)
        && g.game.board.Pieces() == StandardLayout() && g.game.turnTeam == WHITE && !g.game.gameOver
      ensures old(dataAccess.IdsIssued()) && r.Ok? ==> r.value !in old(dataAccess.games)
      ensures old(dataAccess.IdsIssued()) && (r.Err? || old(dataAccess.nextGameId) < MaxInt32 - 1) ==>
        dataAccess.IdsIssued()
      ensures dataAccess.users == old(dataAccess.users) && dataAccess.authTokens == old(dataAccess.authTokens)
    {
      var auth := dataAccess.GetAuthorization(request.authToken);
      if auth == None {
        return Err("Unauthorized");
      }
      if request.gameName == None || request.gameName.value == "" {
        return Err("Bad Request");
      }
      var gameID := dataAccess.CreateGameID();
      var chess := new ChessGame();
      var game := GameData(gameID, None, None, request.gameName.value, chess);
      dataAccess.CreateGame(game);
      return Ok(gameID);
    }

    /** joinGame: the checks in the source's order, then the seat claimed
        inline exactly as getGameData does it and the game updated. */
    method JoinGame(request: JoinRequest) returns (r: Outcome<string>)
      requires dataAccess.Valid()
      modifies dataAccess
      ensures dataAccess.Valid()
      ensures var o := JoinOutcome(old(dataAccess.authTokens), old(dataAccess.games), request);
        if o.Err? then r == Fail(o.error) && dataAccess.games == old(dataAccess.games)
        else r == Pass && dataAccess.games == old(dataAccess.games)[request.gameID := o.value]
      ensures old(dataAccess.IdsIssued()) ==> dataAccess.IdsIssued()
      ensures dataAccess.users == old(dataAccess.users) && dataAccess.authTokens == old(dataAccess.authTokens)
      ensures dataAccess.nextGameId == old(dataAccess.nextGameId)
    {
      if request.gameID <= 0 {
        return Fail("Bad Request");
      }
      var auth := dataAccess.GetAuthorization(request.authToken);
      if auth == None {
        return Fail("Unauthorized");
      }
      var game := dataAccess.GetGame(request.gameID);
      if game == None {
        return Fail("Game not found");
      }
      var username := auth.value.username;
      if request.playerColor == None || request.playerColor.value == "" {
        return Fail("Bad Request");
      }
      var teamColor := ParseColor(request.playerColor.value);
      if teamColor == None {
        return Fail("Bad Request");
      }
      var g := game.value;
      var game2;
      if teamColor.value == WHITE {
        if g.whiteUsername != None {
          return Fail("Already taken");
        }
        game2 := GameData(g.gameID, Some(username), g.blackUsername, g.gameName, g.game);
      } else {
        if g.blackUsername != None {
          return Fail("Already taken");
        }
        game2 := GameData(g.gameID, g.whiteUsername, Some(username), g.gameName, g.game);
      }
      var u := dataAccess.UpdateGame(game2);
      assert u.Pass?;
      return Pass;
    }

    /** listGames: every stored game, each once, for a known token. */
    method ListGames(request: ListGamesRequest) returns (r: Result<seq<GameData>, string>)
      requires dataAccess.Valid()
      ensures request.authToken in dataAccess.authTokens <==> r.Ok?
      ensures request.authToken !in dataAccess.authTokens <==> r == Err("Unauthorized")
      ensures r.Ok? ==>
        && |r.value| == |dataAccess.games|
        && (forall g :: g in r.value <==> g in dataAccess.games.Values)
    {
      var authorized := dataAccess.GetAuthorization(request.authToken);
      if authorized == None {
        return Err("Unauthorized");
      }
      var games := dataAccess.ListOfGames();
      return Ok(games);
    }
  }

  // ---------------------------------------------------------------------
  // UserService

  datatype RegisterRequest = RegisterRequest(username: Option<string>, password: Option<string>, email: Option<string>)
  datatype RegisterResponse = RegisterResponse(authToken: string, username: string)
  datatype LoginRequest = LoginRequest(username: Option<string>, password: Option<string>)
  datatype LoginResponse = LoginResponse(username: string, authToken: string)
  datatype LogoutRequest = LogoutRequest(authToken: string)

  /** checkRegistration: all three fields must be present. */
  function CheckRegistration(request: RegisterRequest): (r: Outcome<string>)
    ensures r.Pass? <==> request.username.Some? && request.password.Some? && request.email.Some?
    ensures r.Fail? ==> r.error == "Error: bad request"
  {
    if request.username == None || request.password == None || request.email == None
    then Fail("Error: bad request") else Pass
  }

  /** loginCredentials: the user exists and its password equals the one given. */
  function LoginCredentials(user: Option<UserData>, password: Option<string>): (r: Outcome<string>)
    ensures r.Pass? <==> user.Some? && password == Some(user.value.password)
    ensures r.Fail? ==> r.error == "Error: unauthorized"
  {
    if user == None || Some(user.value.password) != password then Fail("Error: unauthorized") else Pass
  }

  /** isAuthorized: the token was found. */
  function IsAuthorized(authData: Option<AuthData>): (r: Outcome<string>)
    ensures r.Pass? <==> authData.Some?
    ensures r.Fail? ==> r.error == "Error: unauthorized"
  {
    if authData == None then Fail("Error: unauthorized") else Pass
  }

  /** The error register reports, if any: the field check, then a taken name. */
  function RegisterError(users: map<string, UserData>, request: RegisterRequest): Option<string>
  {
    if CheckRegistration(request).Fail? then Some(CheckRegistration(request).error)
    else if request.username.value in users then Some("User already exists")
    else None
  }

  /** A well-formed registration fails exactly when the name is taken, with
      the store's message; a registration with a missing field always fails. */
  lemma RegisterErrorCases(users: map<string, UserData>, request: RegisterRequest)
    ensures RegisterError(users, request).None? <==>
      request.username.Some? && request.password.Some? && request.email.Some? && request.username.value !in users
    ensures request.username == None ==> RegisterError(users, request) == Some("Error: bad request")
  {
  }

  class UserService {
    const dataAccess: AccessDataInMemory

    constructor(dataAccess: AccessDataInMemory)
      ensures this.dataAccess == dataAccess
    {
      this.dataAccess := dataAccess;
    }

    /** register: the field check, then createUser, then a new token for the
        name. The token that UUID.randomUUID would draw is the parameter
        `authToken`. */
    method Register(request: RegisterRequest, authToken: string) returns (r: Result<RegisterResponse, string>)
      requires dataAccess.Valid()
      modifies dataAccess
      ensures dataAccess.Valid()
      ensures var e := RegisterError(old(dataAccess.users), request);
        if e.Some? then
          && r == Err(e.value)
          && dataAccess.users == old(dataAccess.users) && dataAccess.authTokens == old(dataAccess.authTokens)
        else
          var name := request.username.value;
          && r == Ok(RegisterResponse(authToken, name))
          && dataAccess.users == old(dataAccess.users)[name := UserData(name, request.password.value, request.email.value)]
          && dataAccess.authTokens == old(dataAccess.authTokens)[authToken := AuthData(authToken, name)]
      ensures dataAccess.games == old(dataAccess.games) && dataAccess.nextGameId == old(dataAccess.nextGameId)
    {
      var check := CheckRegistration(request);
      if check.Fail? {
        return Err(check.error);
      }
      var user := UserData(request.username.value, request.password.value, request.email.value);
      var created := dataAccess.CreateUser(user);
      if created.Fail? {
        return Err(created.error);
      }
      dataAccess.CreateAuthorization(AuthData(authToken, request.username.value));
      return Ok(RegisterResponse(authToken, request.username.value));
    }

    /** login: the user must exist with the given password; then a new token
        for the name (the drawn token is the parameter `authToken`). */
    method Login(request: LoginRequest, authToken: string) returns (r: Result<LoginResponse, string>)
      requires dataAccess.Valid()
      modifies dataAccess
      ensures dataAccess.Valid()
      ensures var user := if request.username == None then None else old(dataAccess.GetUser(request.username.value));
        if LoginCredentials(user, request.password).Fail? then
          r == Err("Error: unauthorized") && dataAccess.authTokens == old(dataAccess.authTokens)
        else
          && r == Ok(LoginResponse(request.username.value, authToken))
          && dataAccess.authTokens == old(dataAccess.authTokens)[authToken := AuthData(authToken, request.username.value)]
      ensures dataAccess.users == old(dataAccess.users) && dataAccess.games == old(dataAccess.games)
      ensures dataAccess.nextGameId == old(dataAccess.nextGameId)
    {
      var user := if request.username == None then None else dataAccess.GetUser(request.username.value);
      var credentials := LoginCredentials(user, request.password);
      if credentials.Fail? {
        return Err(credentials.error);
      }
      dataAccess.CreateAuthorization(AuthData(authToken, request.username.value));
      return Ok(LoginResponse(request.username.value, authToken));
    }

    /** logout: an unknown token is unauthorised; a known one is deleted. */
    method Logout(request: LogoutRequest) returns (r: Outcome<string>)
      requires dataAccess.Valid()
      modifies dataAccess
      ensures dataAccess.Valid()
      ensures r == if old(request.authToken in dataAccess.authTokens) then Pass else Fail("Error: unauthorized")
      ensures r.Fail? ==> dataAccess.authTokens == old(dataAccess.authTokens)
      ensures r.Pass? ==> dataAccess.authTokens == old(dataAccess.authTokens) - {request.authToken}
      ensures dataAccess.users == old(dataAccess.users) && dataAccess.games == old(dataAccess.games)
      ensures dataAccess.nextGameId == old(dataAccess.nextGameId)
    {
      var authorized := dataAccess.GetAuthorization(request.authToken);
      var check := IsAuthorized(authorized);
      if check.Fail? {
        return check;
      }
      var deleted := dataAccess.DeleteAuthorization(request.authToken);
      assert deleted.Pass?;
      return Pass;
    }
  }

  // ---------------------------------------------------------------------
  // Sequences of service calls

  /** Registering the same name twice: the second registration fails, whatever tokens are drawn. */
  method RegisterTwice(service: UserService, request: RegisterRequest, token1: string, token2: string)
    returns (first: Result<RegisterResponse, string>, second: Result<RegisterResponse, string>)
    requires service.dataAccess.Valid()
    modifies service.dataAccess
    ensures second.Err?
    ensures first.Ok? ==> second == Err("User already exists")
  {
    first := service.Register(request, token1);
    second := service.Register(request, token2);
  }

  /** Logging out twice with the same token: the second logout is unauthorised. */
  method LogoutTwice(service: UserService, request: LogoutRequest)
    returns (first: Outcome<string>, second: Outcome<string>)
    requires service.dataAccess.Valid()
    modifies service.dataAccess
    ensures second == Fail("Error: unauthorized")
  {
    first := service.Logout(request);
    second := service.Logout(request);
  }

  /** A user who registers and then logs in gets a token for their name. */
  method RegisterThenLogin(service: UserService, name: string, password: string, email: string,
                           token1: string, token2: string)
    returns (registered: Result<RegisterResponse, string>, loggedIn: Result<LoginResponse, string>)
    requires service.dataAccess.Valid() && name !in service.dataAccess.users
    modifies service.dataAccess
    ensures registered == Ok(RegisterResponse(token1, name))
    ensures loggedIn == Ok(LoginResponse(name, token2))
    ensures token2 in service.dataAccess.authTokens && service.dataAccess.authTokens[token2].username == name
  {
    registered := service.Register(RegisterRequest(Some(name), Some(password), Some(email)), token1);
    loggedIn := service.Login(LoginRequest(Some(name), Some(password)), token2);
  }

  /** Two successful createGame calls in a row, away from the int limit,
      return ids two apart: the id counter is bumped by createGameID and
      again by the store's createGame. */
  method SuccessiveGameIds(service: GameService, request1: CreateGameRequest, request2: CreateGameRequest)
    returns (id1: Result<Int32, string>, id2: Result<Int32, string>)
    requires service.dataAccess.Valid() && service.dataAccess.nextGameId < MaxInt32 - 3
    modifies service.dataAccess
    ensures id1.Ok? && id2.Ok? ==> id2.value as int == id1.value as int + 2
  {
    id1 := service.CreateGame(request1);
    id2 := service.CreateGame(request2);
  }
}
