/** The serialisable records of ludo/serialization.py and the errors a load can raise. */
module Serialization {
  import opened Wrappers

  /** The save-format version this engine writes and accepts. */
  const SCHEMA_VERSION: string := "1.0"

  /** A piece as saved: enum members are stored by name. */
  datatype PieceData = PieceData(id: int, color: string, state: string, position: int)

  /** A player as saved. The record in ludo/serialization.py declares only `color` and `pieces`,
      but every producer and consumer passes or reads `role`, so the model carries it. */
  datatype PlayerData = PlayerData(color: string, role: string, pieces: seq<PieceData>)

  /** A whole game state as saved. */
  datatype GameData = GameData(
    schemaVersion: string,
    players: seq<PlayerData>,
    currentPlayerIndex: int,
    diceRoll: Option<int>,
    isGameOver: bool,
    consecutiveSixes: int,
    diceSeed: Option<int>)

  /** Why a load fails: the ValueError of the version check, or the KeyError of an enum lookup by name. */
  datatype LoadError = SchemaVersionMismatch(found: string) | UnknownName(name: string)
}
