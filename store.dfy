/** AccessDataInMemory: three hash maps (users by name, games by id,
    authorisations by token) and the next game id. A thrown
    DataAccessException is a `Fail` carrying its message. */
module Store {

  import opened Wrappers
  import opened Records

  class AccessDataInMemory {
    var users: map<string, UserData>
    var games: map<Int32, GameData>
    var authTokens: map<string, AuthData>
    var nextGameId: Int32

    /** Every entry is filed under its own key: a user under its name, a game
        under its id, an authorisation under its token. */
    ghost predicate Valid()
      reads this
    {
      && (forall u :: u in users ==> users[u].username == u)
      && (forall id :: id in games ==> games[id].gameID == id)
      && (forall t :: t in authTokens ==> authTokens[t].authToken == t)
    }

    /** Every stored game id was issued by the counter: the ids are positive
        and below the counter's next value. */
    ghost predicate IdsIssued()
      reads this
    {
      0 < nextGameId && forall id :: id in games ==> 0 < id < nextGameId
    }

    constructor()
      ensures Valid() && IdsIssued()
      ensures users == map[] && games == map[] && authTokens == map[] && nextGameId == 1
    {
      users := map[];
      games := map[];
      authTokens := map[];
      nextGameId := 1;
    }

    /** clear: all three maps emptied, the counter back to 1. */
    method Clear()
      modifies this
      ensures Valid() && IdsIssued()
      ensures users == map[] && games == map[] && authTokens == map[] && nextGameId == 1
    {
      users := map[];
      games := map[];
      authTokens := map[];
      nextGameId := 1;
    }

    /** createGameID: returns the counter, then increments it (with int wrap-around). */
    method CreateGameID() returns (id: Int32)
      modifies this
      ensures id == old(nextGameId) && nextGameId == Inc32(old(nextGameId))
      ensures users == old(users) && games == old(games) && authTokens == old(authTokens)
    {
      id := nextGameId;
      nextGameId := Inc32(nextGameId);
    }

    /** createUser: refuses a name already taken; otherwise getUser(name) is now the user. */
    method CreateUser(user: UserData) returns (r: Outcome<string>)
      requires Valid()
      modifies this
      ensures Valid()
      ensures r == if old(user.username in users) then Fail("User already exists") else Pass
      ensures r.Fail? ==> users == old(users)
      ensures r.Pass? ==> users == old(users)[user.username := user] && GetUser(user.username) == Some(user)
      ensures games == old(games) && authTokens == old(authTokens) && nextGameId == old(nextGameId)
    {
      if user.username in users {
        return Fail("User already exists");
      }
      users := users[user.username := user];
      return Pass;
    }

    /** getUser: the user, or null. */
    function GetUser(username: string): (r: Option<UserData>)
      reads this
      ensures r.Some? <==> username in users
      ensures Valid() && r.Some? ==> r.value.username == username
    {
      if username in users then Some(users[username]) else None
    }

    /** createGame: files the game under its id (replacing any game there) and
        increments the counter a second time. */
    method CreateGame(newGame: GameData)
      requires Valid()
      modifies this
      ensures Valid()
      ensures games == old(games)[newGame.gameID := newGame] && GetGame(newGame.gameID) == Some(newGame)
      ensures nextGameId == Inc32(old(nextGameId))
      ensures users == old(users) && authTokens == old(authTokens)
    {
      games := games[newGame.gameID := newGame];
      nextGameId := Inc32(nextGameId);
    }

    /** getGame: the game, or null. */
    function GetGame(gameID: Int32): (r: Option<GameData>)
      reads this
      ensures r.Some? <==> gameID in games
      ensures Valid() && r.Some? ==> r.value.gameID == gameID
    {
      if gameID in games then Some(games[gameID]) else None
    }

    /** listOfGames: a copy of the stored games, each exactly once, in the
        map's iteration order. */
    method ListOfGames() returns (r: seq<GameData>)
      requires Valid()
      ensures |r| == |games|
      ensures forall g :: g in r <==> g in games.Values
      ensures forall i, j :: 0 <= i < j < |r| ==> r[i].gameID != r[j].gameID
    {
      r := [];
      var rest := games.Keys;
      while rest != {}
        invariant rest <= games.Keys
        invariant |r| + |rest| == |games|
        invariant forall g :: g in r <==> exists id :: id in games.Keys - rest && games[id] == g
        invariant forall i, j :: 0 <= i < j < |r| ==> r[i].gameID != r[j].gameID
        invariant forall i :: 0 <= i < |r| ==> r[i].gameID in games.Keys - rest
        decreases rest
      {
        var id :| id in rest;
        assert games[id].gameID == id;
        r := r + [games[id]];
        rest := rest - {id};
      }
      assert |games.Keys| == |games|;
    }

    /** updateGame: refuses an unknown id; otherwise replaces only that game. */
    method UpdateGame(game: GameData) returns (r: Outcome<string>)
      requires Valid()
      modifies this
      ensures Valid()
      ensures r == if old(game.gameID in games) then Pass else Fail("Game not found")
      ensures r.Fail? ==> games == old(games)
      ensures r.Pass? ==> games == old(games)[game.gameID := game] && GetGame(game.gameID) == Some(game)
      ensures users == old(users) && authTokens == old(authTokens) && nextGameId == old(nextGameId)
    {
      if game.gameID !in games {
        return Fail("Game not found");
      }
      games := games[game.gameID := game];
      return Pass;
    }

    /** createAuthorization: files the authorisation under its token,
        overwriting any entry there. */
    method CreateAuthorization(auth: AuthData)
      requires Valid()
      modifies this
      ensures Valid()
      ensures authTokens == old(authTokens)[auth.authToken := auth] && GetAuthorization(auth.authToken) == Some(auth)
      ensures users == old(users) && games == old(games) && nextGameId == old(nextGameId)
    {
      authTokens := authTokens[auth.authToken := auth];
    }

    /** getAuthorization: the authorisation, or null. */
    function GetAuthorization(authToken: string): (r: Option<AuthData>)
      reads this
      ensures r.Some? <==> authToken in authTokens
      ensures Valid() && r.Some? ==> r.value.authToken == authToken
    {
      if authToken in authTokens then Some(authTokens[authToken]) else None
    }

    /** deleteAuthorization: refuses an unknown token; otherwise removes only that token. */
    method DeleteAuthorization(authToken: string) returns (r: Outcome<string>)
      requires Valid()
      modifies this
      ensures Valid()
      ensures r == if old(authToken in authTokens) then Pass else Fail("Authorization token not found")
      ensures r.Fail? ==> authTokens == old(authTokens)
      ensures r.Pass? ==> authTokens == old(authTokens) - {authToken} && GetAuthorization(authToken) == None
      ensures users == old(users) && games == old(games) && nextGameId == old(nextGameId)
    {
      if authToken !in authTokens {
        return Fail("Authorization token not found");
      }
      authTokens := authTokens - {authToken};
      return Pass;
    }
  }
}
