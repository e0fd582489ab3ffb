/** The records the server stores: users, authorisations and games. A Java
    `int` is an `Int32`; a reference that may be null is an `Option`. */
module Records {

  import opened Wrappers
  import opened Game

  newtype Int32 = x: int | -0x8000_0000 <= x < 0x8000_0000

  const MaxInt32: Int32 := 0x7fff_ffff
  const MinInt32: Int32 := -0x8000_0000

  /** Java's `x + 1` on an `int`: wraps from the largest value to the smallest. */
  function Inc32(x: Int32): (r: Int32)
    ensures r as int == (x as int + 1 + 0x8000_0000) % 0x1_0000_0000 - 0x8000_0000
    ensures x < MaxInt32 ==> r == x + 1
  {
    if x == MaxInt32 then MinInt32 else x + 1
  }

  /** UserData(username, password, email). */
  datatype UserData = UserData(username: string, password: string, email: string)

  /** AuthData(authToken, username). */
  datatype AuthData = AuthData(authToken: string, username: string)

  /** GameData(gameID, whiteUsername, blackUsername, gameName, game): a seat
      is None until a player claims it; `game` is a reference to a live game. */
  datatype GameData = GameData(gameID: Int32, whiteUsername: Option<string>, blackUsername: Option<string>,
                               gameName: string, game: ChessGame)
}
