/** Move application of ludo/move.py: advance one piece, capture on its landing square, detect a win. */
module Moves {
  import opened Constants
  import opened Board
  import opened Pieces
  import opened Players
  import opened State

  /** A piece named by its owner's index in the player list and its index among that player's pieces
      (Python passes the piece object itself). */
  datatype PieceRef = PieceRef(player: nat, index: nat)

  /** A candidate move: the piece to move and the square it is reported to land on. */
  datatype Move = Move(piece: PieceRef, destination: int)

  predicate ValidRef(players: seq<Player>, r: PieceRef)
  {
    r.player < |players| && r.index < |players[r.player].pieces|
  }

  /** The piece at `r`. */
  function PieceAt(players: seq<Player>, r: PieceRef): Piece
    requires ValidRef(players, r)
  {
    players[r.player].pieces[r.index]
  }

  /** `players` with the piece at `r` replaced by `p`. */
  function SetPiece(players: seq<Player>, r: PieceRef, p: Piece): (result: seq<Player>)
    requires ValidRef(players, r)
    ensures SameShape(players, result) && PieceAt(result, r) == p
    ensures forall i, j :: 0 <= i < |players| && 0 <= j < |players[i].pieces| && PieceRef(i, j) != r ==>
      result[i].pieces[j] == players[i].pieces[j]
  {
    players[r.player := players[r.player].(pieces := players[r.player].pieces[r.index := p])]
  }

  /** Two player lists with the same players (colours, roles) and the same number of pieces each. */
  predicate SameShape(a: seq<Player>, b: seq<Player>)
  {
    && |a| == |b|
    && forall i :: 0 <= i < |a| ==>
         a[i].color == b[i].color && a[i].role == b[i].role && |a[i].pieces| == |b[i].pieces|
  }

  /** Where the moved piece itself ends up (move.py lines 17-59): a yard piece enters at its colour's
      start square whatever the roll; a track piece advances by `roll`, turning into the home column
      once its progress reaches 51, and stays put on an overshoot; a home-column piece advances within
      the column and stays put on an overshoot; a piece on the last column square (57) is HOME. */
  function Advance(p: Piece, roll: int): (q: Piece)
    ensures q.id == p.id && q.color == p.color
  {
    var stepped :=
      match p.state
      case Yard => p.(state := Track, position := StartSquare(p.color))
      case Track =>
        var newProgress := Progress(p.position, StartSquare(p.color)) + roll;
        if newProgress >= 51 then
          if newProgress - 51 < HOME_COLUMN_LENGTH then p.(state := HomeColumn, position := 52 + (newProgress - 51))
          else p
        else p.(position := (p.position + roll) % TRACK_LENGTH)
      case HomeColumn =>
        if p.position - 52 + roll < HOME_COLUMN_LENGTH then p.(position := 52 + (p.position - 52 + roll))
        else p
      case Home => p;
    if stepped.state == HomeColumn && stepped.position - 52 == HOME_COLUMN_LENGTH - 1 then stepped.(state := Home)
    else stepped
  }

  /** True when a piece on the track at `square` is hit by a capture there. */
  predicate OnTrackAt(p: Piece, square: int)
  {
    p.state == Track && p.position == square
  }

  /** An opponent's pieces after a capture on `square`: those on the track there go back to the yard. */
  function SendBack(pieces: seq<Piece>, square: int): (r: seq<Piece>)
    ensures |r| == |pieces|
  {
    seq(|pieces|, j requires 0 <= j < |pieces| =>
      if OnTrackAt(pieces[j], square) then pieces[j].(state := Yard, position := -1) else pieces[j])
  }

  /** One player after the capture scan for `mover`: players of the mover's colour are skipped. */
  function CapturePlayer(player: Player, mover: Piece): Player
  {
    if player.color == mover.color then player else player.(pieces := SendBack(player.pieces, mover.position))
  }

  /** True when the capture scan runs: the mover is on the track on a square that is not safe. */
  predicate Captures(mover: Piece)
  {
    mover.state == Track && mover.position !in SAFE_SQUARES
  }

  /** The capture scan of move.py lines 62-73 for `mover`, over every player. */
  function CaptureAll(players: seq<Player>, mover: Piece): (r: seq<Player>)
    ensures |r| == |players|
  {
    if Captures(mover) then seq(|players|, i requires 0 <= i < |players| => CapturePlayer(players[i], mover))
    else players
  }

  /** The player list after `move_piece(state, piece at r, roll)`. */
  function ApplyMove(players: seq<Player>, r: PieceRef, roll: int): (result: seq<Player>)
    requires ValidRef(players, r)
    ensures SameShape(players, result)
  {
    var mover := Advance(PieceAt(players, r), roll);
    CaptureAll(SetPiece(players, r, mover), mover)
  }

  /** Every piece of the list is HOME (vacuously so for an empty list, as Python's `all`). */
  predicate AllHome(pieces: seq<Piece>)
  {
    forall j :: 0 <= j < |pieces| ==> pieces[j].state == Home
  }

  /** `move_piece`: moves the piece at `r` by `roll`, sends back the opponents it lands on, and sets
      the game-over flag when every piece of the *current* player is HOME. The current index, the
      dice roll, the run of sixes and the seed are not touched. */
  method MovePiece(gameState: GameState, r: PieceRef, roll: int)
    requires ValidRef(gameState.players, r)
    requires 0 <= gameState.currentPlayerIndex < |gameState.players|
    modifies gameState`players, gameState`isGameOver
    ensures gameState.players == ApplyMove(old(gameState.players), r, roll)
    ensures gameState.isGameOver ==
      (old(gameState.isGameOver) || AllHome(gameState.players[gameState.currentPlayerIndex].pieces))
  {
    var piece := AdvancedPiece(PieceAt(gameState.players, r), roll);
    gameState.players := SetPiece(gameState.players, r, piece);

    if piece.state == Track && piece.position !in SAFE_SQUARES {
      CaptureOpponents(gameState, piece);
    }

    var currentPlayer := gameState.players[gameState.currentPlayerIndex];
    if AllHome(currentPlayer.pieces) {
      gameState.isGameOver := true;
    }
  }

  /** The first part of `move_piece`: where the piece goes. A yard piece enters the track at its
      start square; a track piece moves round the track or into the home column, and stays put on an
      overshoot; a home-column piece moves up unless it would overshoot; reaching the last home
      square makes it HOME. */
  method AdvancedPiece(piece: Piece, roll: int) returns (moved: Piece)
    ensures moved == Advance(piece, roll)
  {
    moved := piece;
    if moved.state == Yard {
      moved := moved.(state := Track, position := StartSquare(moved.color));
    } else if moved.state == Track {
      var newPositionOnTrack := (moved.position + roll) % TRACK_LENGTH;
      var currentProgress := Progress(moved.position, StartSquare(moved.color));
      var newProgress := currentProgress + roll;
      if newProgress >= 51 {
        var homePos := newProgress - 51;
        if homePos < HOME_COLUMN_LENGTH {
          moved := moved.(state := HomeColumn, position := 52 + homePos);
        }
        // otherwise an overshoot: the piece stays where it is
      } else {
        moved := moved.(position := newPositionOnTrack);
      }
    } else if moved.state == HomeColumn {
      var currentHomePos := moved.position - 52;
      var newHomePos := currentHomePos + roll;
      if newHomePos < HOME_COLUMN_LENGTH {
        moved := moved.(position := 52 + newHomePos);
      }
    }
    var finalHomePosIdx := HOME_COLUMN_LENGTH - 1;
    if moved.state == HomeColumn && moved.position - 52 == finalHomePosIdx {
      moved := moved.(state := Home);
    }
  }

  /** The capture part of `move_piece`: every piece of another colour on the track at the moving
      piece's square goes back to its yard. */
  method CaptureOpponents(gameState: GameState, piece: Piece)
    requires Captures(piece)
    modifies gameState`players
    ensures gameState.players == CaptureAll(old(gameState.players), piece)
  {
    ghost var moved := gameState.players;
    var i := 0;
    while i < |gameState.players|
      modifies gameState`players
      invariant 0 <= i <= |gameState.players| == |moved|
      invariant forall t :: 0 <= t < i ==> gameState.players[t] == CapturePlayer(moved[t], piece)
      invariant forall t :: i <= t < |moved| ==> gameState.players[t] == moved[t]
    {
      var player := gameState.players[i];
      if player.color != piece.color {
        var pieces := player.pieces;
        var j := 0;
        while j < |pieces|
          invariant 0 <= j <= |pieces| == |player.pieces|
          invariant forall u :: 0 <= u < j ==> pieces[u] == SendBack(player.pieces, piece.position)[u]
          invariant forall u :: j <= u < |pieces| ==> pieces[u] == player.pieces[u]
        {
          var opponentPiece := pieces[j];
          if opponentPiece.state == Track && opponentPiece.position == piece.position {
            pieces := pieces[j := opponentPiece.(state := Yard, position := -1)];
          }
          j := j + 1;
        }
        assert pieces == SendBack(player.pieces, piece.position);
        gameState.players := gameState.players[i := player.(pieces := pieces)];
      }
      i := i + 1;
    }
    assert gameState.players == CaptureAll(moved, piece);
  }

  // ---------------------------------------------------------------------------
  // Properties of a single move

  /** The step count from leaving the yard to HOME: 51 track steps and 5 more up the column. */
  const FINISH: int := 51 + HOME_COLUMN_LENGTH - 1

  /** A piece's position is the one its state calls for: -1 in the yard, a track square on the
      track, 52..56 in the home column (57 is promoted to HOME by every move). */
  predicate WellPlaced(p: Piece)
  {
    match p.state
    case Yard => p.position == -1
    case Track => 0 <= p.position < TRACK_LENGTH
    case HomeColumn => 52 <= p.position < 52 + HOME_COLUMN_LENGTH - 1
    case Home => true
  }

  /** How many steps a piece on the track or in the home column has made since its start square. */
  function Journey(p: Piece): int
  {
    match p.state
    case Yard => -1
    case Track => Progress(p.position, StartSquare(p.color))
    case HomeColumn => 51 + (p.position - 52)
    case Home => FINISH
  }

  /** The piece placed `steps` steps after its start square: an independent description of where
      a journey of that length ends, on the track, in the home column, or HOME at 57. */
  function PlacedAfter(p: Piece, steps: int): Piece
    requires 0 <= steps <= FINISH
  {
    if steps < 51 then p.(state := Track, position := (StartSquare(p.color) + steps) % TRACK_LENGTH)
    else if steps < FINISH then p.(state := HomeColumn, position := 52 + (steps - 51))
    else p.(state := Home, position := 52 + (steps - 51))
  }

  /** A placed piece is well placed, and its journey is the one it was placed at. */
  lemma PlacedAfterIsConsistent(p: Piece, steps: int)
    requires 0 <= steps <= FINISH
    ensures WellPlaced(PlacedAfter(p, steps)) && Journey(PlacedAfter(p, steps)) == steps
  {
  }

  /** What a move does to the moved piece, in terms of its journey: a yard piece enters at its start
      square whatever the roll, a HOME piece stays, and a piece on the track or in the home column
      advances exactly `roll` steps when that does not pass HOME and otherwise does not move at all. */
  lemma {:induction false} AdvanceFollowsJourney(p: Piece, roll: int)
    requires WellPlaced(p) && roll >= 1
    ensures p.state == Yard ==> Advance(p, roll) == PlacedAfter(p, 0)
    ensures p.state == Home ==> Advance(p, roll) == p
    ensures (p.state == Track || p.state == HomeColumn) && Journey(p) + roll <= FINISH ==>
      Advance(p, roll) == PlacedAfter(p, Journey(p) + roll)
    ensures (p.state == Track || p.state == HomeColumn) && Journey(p) + roll > FINISH ==>
      Advance(p, roll) == p
    ensures WellPlaced(Advance(p, roll))
  {
    if p.state == Track {
      TrackAdvance(p, roll);
    }
  }

  /** `AdvanceFollowsJourney` for a piece on the track: the square it reaches is the one that many
      steps after its start square, which takes the remainders to agree. */
  lemma TrackAdvance(p: Piece, roll: int)
    requires WellPlaced(p) && p.state == Track && roll >= 1
    ensures Journey(p) + roll <= FINISH ==> Advance(p, roll) == PlacedAfter(p, Journey(p) + roll)
    ensures Journey(p) + roll > FINISH ==> Advance(p, roll) == p
    ensures WellPlaced(Advance(p, roll))
  {
    var start := StartSquare(p.color);
    var progress := Progress(p.position, start);
    assert (start + progress) % TRACK_LENGTH == p.position;
    ModAddShift(start + progress, p.position, roll);
  }

  /** Adding the same amount to two numbers with the same remainder keeps the remainders equal. */
  lemma ModAddShift(a: int, b: int, k: int)
    requires a % TRACK_LENGTH == b % TRACK_LENGTH
    ensures (a + k) % TRACK_LENGTH == (b + k) % TRACK_LENGTH
  {
    var qa, qb := a / TRACK_LENGTH, b / TRACK_LENGTH;
    assert a == qa * TRACK_LENGTH + a % TRACK_LENGTH;
    assert b == qb * TRACK_LENGTH + b % TRACK_LENGTH;
    assert a + k == (b + k) + (qa - qb) * TRACK_LENGTH;
    ModMultiple(b + k, qa - qb);
  }

  lemma ModMultiple(x: int, q: int)
    ensures (x + q * TRACK_LENGTH) % TRACK_LENGTH == x % TRACK_LENGTH
  {
    var r := x % TRACK_LENGTH;
    assert x == (x / TRACK_LENGTH) * TRACK_LENGTH + r;
    assert x + q * TRACK_LENGTH == (x / TRACK_LENGTH + q) * TRACK_LENGTH + r;
  }

  /** A move finishes a piece exactly when the roll covers the rest of its journey. */
  lemma {:induction false} HomeNeedsExactRoll(p: Piece, roll: int)
    requires WellPlaced(p) && roll >= 1
    ensures Advance(p, roll).state == Home <==>
      p.state == Home || ((p.state == Track || p.state == HomeColumn) && Journey(p) + roll == FINISH)
  {
    AdvanceFollowsJourney(p, roll);
    if (p.state == Track || p.state == HomeColumn) && Journey(p) + roll <= FINISH {
      PlacedAfterIsConsistent(p, Journey(p) + roll);
    }
  }

  /** Every piece has its owner's colour (Player.__post_init__ builds them so; a move never recolours). */
  predicate OwnColours(players: seq<Player>)
  {
    forall i, j :: 0 <= i < |players| && 0 <= j < |players[i].pieces| ==> players[i].pieces[j].color == players[i].color
  }

  /** Captures touch only opponents: apart from the mover, the only pieces a move changes are pieces
      of another colour standing on the track on the mover's landing square when that square is on the
      track and not safe, and each of those goes back to the yard at -1. Same-colour pieces, pieces
      elsewhere, and every piece after a move onto a safe square or off the track are untouched. */
  lemma {:induction false} CaptureEffect(players: seq<Player>, r: PieceRef, roll: int)
    requires ValidRef(players, r) && OwnColours(players)
    ensures SameShape(players, ApplyMove(players, r, roll))
    ensures OwnColours(ApplyMove(players, r, roll))
    ensures PieceAt(ApplyMove(players, r, roll), r) == Advance(PieceAt(players, r), roll)
    ensures forall i, j :: 0 <= i < |players| && 0 <= j < |players[i].pieces| && PieceRef(i, j) != r ==>
      var before, mover := players[i].pieces[j], Advance(PieceAt(players, r), roll);
      ApplyMove(players, r, roll)[i].pieces[j] ==
        if Captures(mover) && players[i].color != mover.color && OnTrackAt(before, mover.position)
        then before.(state := Yard, position := -1)
        else before
    ensures forall i, j ::
      && 0 <= i < |players| && 0 <= j < |players[i].pieces| && PieceRef(i, j) != r
      && (players[i].color == players[r.player].color || !Captures(Advance(PieceAt(players, r), roll)))
      ==> ApplyMove(players, r, roll)[i].pieces[j] == players[i].pieces[j]
  {
    var mover := Advance(PieceAt(players, r), roll);
    var moved := SetPiece(players, r, mover);
    var result := ApplyMove(players, r, roll);
    assert result == CaptureAll(moved, mover);
    forall i, j | 0 <= i < |players| && 0 <= j < |players[i].pieces|
      ensures result[i].pieces[j] ==
        if Captures(mover) && players[i].color != mover.color && OnTrackAt(moved[i].pieces[j], mover.position)
        then moved[i].pieces[j].(state := Yard, position := -1)
        else moved[i].pieces[j]
    {
      if Captures(mover) {
        assert result[i] == CapturePlayer(moved[i], mover);
      }
    }
  }

  /** Every piece of every player is well placed. */
  predicate AllWellPlaced(players: seq<Player>)
  {
    forall i, j :: 0 <= i < |players| && 0 <= j < |players[i].pieces| ==> WellPlaced(players[i].pieces[j])
  }

  /** A move keeps every piece well placed and every piece in its owner's colour. */
  lemma {:induction false} MoveKeepsWellPlaced(players: seq<Player>, r: PieceRef, roll: int)
    requires ValidRef(players, r) && OwnColours(players) && roll >= 1 && AllWellPlaced(players)
    ensures AllWellPlaced(ApplyMove(players, r, roll)) && OwnColours(ApplyMove(players, r, roll))
  {
    CaptureEffect(players, r, roll);
    AdvanceFollowsJourney(PieceAt(players, r), roll);
  }
}
