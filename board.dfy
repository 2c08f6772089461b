/** Board geometry of ludo/board.py: the 52-square track, start squares, home-entry squares, safe squares. */
module Board {
  import opened Constants

  /** The main track has squares 0..51. */
  const TRACK_LENGTH: int := 52

  /** The home column has 6 squares, encoded as positions 52..57. */
  const HOME_COLUMN_LENGTH: int := 6

  /** START_SQUARES: where a colour's pieces enter the track. */
  function StartSquare(c: PlayerColor): int
  {
    match c
    case Red => 0
    case Green => 13
    case Yellow => 26
    case Blue => 39
  }

  /** HOME_ENTRY_SQUARES, as the table lists them. */
  function HomeEntrySquare(c: PlayerColor): int
  {
    match c
    case Red => 51
    case Green => 12
    case Yellow => 25
    case Blue => 38
  }

  /** SAFE_SQUARES: every start square and the square eight steps after it. */
  const SAFE_SQUARES: set<int> :=
    {StartSquare(Red) + 8, StartSquare(Green) + 8, StartSquare(Yellow) + 8, StartSquare(Blue) + 8}
    + {StartSquare(Red), StartSquare(Green), StartSquare(Yellow), StartSquare(Blue)}

  /** How far a piece standing on `position` has come since the start square `start`, in [0, 52). */
  function Progress(position: int, start: int): (p: int)
    ensures 0 <= p < TRACK_LENGTH
    ensures (start + p) % TRACK_LENGTH == position % TRACK_LENGTH
  {
    (position - start + TRACK_LENGTH) % TRACK_LENGTH
  }

  /** Start squares are pairwise distinct squares of the track. */
  lemma StartSquaresDistinctOnTrack(c: PlayerColor, d: PlayerColor)
    ensures 0 <= StartSquare(c) < TRACK_LENGTH
    ensures c != d ==> StartSquare(c) != StartSquare(d)
  {
  }

  /** The home-entry square is the square just before the colour's start square. */
  lemma HomeEntryPrecedesStart(c: PlayerColor)
    ensures HomeEntrySquare(c) == (StartSquare(c) + TRACK_LENGTH - 1) % TRACK_LENGTH
    ensures Progress(HomeEntrySquare(c), StartSquare(c)) == TRACK_LENGTH - 1
  {
  }

  /** The safe squares are exactly eight track squares, and every start square is one of them. */
  lemma SafeSquaresExactly(c: PlayerColor)
    ensures SAFE_SQUARES == {0, 8, 13, 21, 26, 34, 39, 47}
    ensures |SAFE_SQUARES| == 8
    ensures forall q :: q in SAFE_SQUARES ==> 0 <= q < TRACK_LENGTH
    ensures StartSquare(c) in SAFE_SQUARES
  {
  }
}
