/** The player records of data/model/player.kt. */
module Players {

  /** A decoded bitmap. Base64 and bitmap decoding are foreign, so an image is
      identified by the Base64 text it was decoded from. */
  datatype Image = Image(base64: string)

  datatype Player = Player(
    firstName: string,
    secondName: string,
    lastName: string,
    lastName2: string,
    image: Image,
    isBlacklisted: bool)

  /** One entry of the gate queue: the gate position the player stands at and
      the player's id, which is the queue's duplicate key. `playerId` is a
      Kotlin `Int`; the model keeps it unbounded. */
  datatype PlayerResponse = PlayerResponse(position: string, playerId: int, player: Player)

  /** The player whose decision was last confirmed by the server. */
  datatype LastPlayer = LastPlayer(fullName: string, isBlacklisted: bool, isAccepted: bool)
}
