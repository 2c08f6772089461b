/** The greedy strategy of ludo/bots/greedy_bot.py: each legal move is scored by simulating it on a
    copy of the state, and the best-scoring move is chosen. */
module GreedyBots {
  import opened Wrappers
  import opened Constants
  import opened Board
  import opened Pieces
  import opened Players
  import opened State
  import opened Moves
  import Rules

  /** A move's score, compared by tier first and by the secondary value on a tie. */
  datatype Score = Score(tier: int, secondary: int)

  /** `a` is strictly lower than `b` in the lexicographic order of (tier, secondary). */
  predicate Below(a: Score, b: Score)
  {
    a.tier < b.tier || (a.tier == b.tier && a.secondary < b.secondary)
  }

  /** The index of the first piece with id `id`, as `[p for p in pieces if p.id == id][0]`. */
  function IdIndex(pieces: seq<Piece>, id: int): (k: nat)
    requires exists j :: 0 <= j < |pieces| && pieces[j].id == id
    ensures k < |pieces| && pieces[k].id == id
    ensures forall j :: 0 <= j < k ==> pieces[j].id != id
  {
    var hasId := (p: Piece) => p.id == id;
    var j :| 0 <= j < |pieces| && pieces[j].id == id;
    assert hasId(pieces[j]);
    FirstIndexWhere(pieces, hasId);
    IndicesWhere(pieces, hasId)[0]
  }

  /** Some piece of a player other than the current one was on the track before and is in the yard
      after: the capture test of `_get_move_score`. */
  predicate CaptureSeen(before: seq<Player>, after: seq<Player>, cur: nat)
    requires SameShape(before, after)
  {
    exists i, j :: 0 <= i < |before| && i != cur && 0 <= j < |before[i].pieces|
      && before[i].pieces[j].state == Track && after[i].pieces[j].state == Yard
  }

  /** The score `_get_move_score` gives to a move of the current player with the given roll: the
      first of the current player's pieces with the move's piece id is moved on a copy; a piece that
      ends HOME scores (4, 0), a capture (3, destination), leaving the yard for the track
      (2, destination), a move from the track (1, destination), anything else (0, 0). */
  function ScoreOf(players: seq<Player>, cur: nat, m: Move, roll: int): Score
    requires cur < |players| && m.piece.player == cur && ValidRef(players, m.piece)
  {
    var pieces := players[cur].pieces;
    var k := IdIndex(pieces, PieceAt(players, m.piece).id);
    var sim := ApplyMove(players, PieceRef(cur, k), roll);
    var original, simulated := pieces[k], sim[cur].pieces[k];
    if simulated.state == Home then Score(4, 0)
    else if CaptureSeen(players, sim, cur) then Score(3, m.destination)
    else if original.state == Yard && simulated.state == Track then Score(2, m.destination)
    else if original.state == Track then Score(1, m.destination)
    else Score(0, 0)
  }

  /** The score of every move of the list, in order. */
  function Scores(players: seq<Player>, cur: nat, moves: seq<Move>, roll: int): (scores: seq<Score>)
    requires cur < |players|
    requires forall t :: 0 <= t < |moves| ==> moves[t].piece.player == cur && ValidRef(players, moves[t].piece)
    ensures |scores| == |moves|
    ensures forall t :: 0 <= t < |moves| ==> scores[t] == ScoreOf(players, cur, moves[t], roll)
  {
    seq(|moves|, t requires 0 <= t < |moves| => ScoreOf(players, cur, moves[t], roll))
  }

  /** The position a stable sort in decreasing score order puts first: the first of the highest
      scores. No score beats it, and every score before it is strictly lower. */
  function BestIndex(scores: seq<Score>): (b: nat)
    requires |scores| > 0
    ensures b < |scores|
    ensures forall t :: 0 <= t < |scores| ==> !Below(scores[b], scores[t])
    ensures forall t :: 0 <= t < b ==> Below(scores[t], scores[b])
  {
    if |scores| == 1 then 0
    else
      var b := BestIndex(scores[..|scores| - 1]);
      if Below(scores[b], scores[|scores| - 1]) then |scores| - 1 else b
  }

  /** Only one position has the two properties of `BestIndex`: the choice is determined. */
  lemma BestIndexUnique(scores: seq<Score>, b: nat)
    requires b < |scores|
    requires forall t :: 0 <= t < |scores| ==> !Below(scores[b], scores[t])
    requires forall t :: 0 <= t < b ==> Below(scores[t], scores[b])
    ensures b == BestIndex(scores)
  {
  }

  /** `GreedyBot._get_move_score`: simulates the move on a fresh copy of the state with the state's
      own dice roll, leaving the given state as it was, and scores it. */
  method MoveScore(move: Move, gameState: GameState) returns (score: Score)
    requires 0 <= gameState.currentPlayerIndex < |gameState.players|
    requires move.piece.player == gameState.currentPlayerIndex && ValidRef(gameState.players, move.piece)
    requires gameState.diceRoll.Some?
    ensures score == ScoreOf(gameState.players, gameState.currentPlayerIndex, move, gameState.diceRoll.value)
  {
    var cur := gameState.currentPlayerIndex;
    var players := gameState.players;
    var pieceToMove := PieceAt(players, move.piece);
    var k := IdIndex(players[cur].pieces, pieceToMove.id);
    var originalPiece := players[cur].pieces[k];

    var simState := new GameState(players, cur, gameState.diceRoll, gameState.isGameOver,
                                  gameState.consecutiveSixes, gameState.diceSeed);
    MovePiece(simState, PieceRef(cur, k), simState.diceRoll.value);
    var sim := simState.players;
    var pieceInSim := sim[cur].pieces[k];

    if pieceInSim.state == Home {
      return Score(4, 0);
    }

    var captured := CaptureScan(players, sim, cur);
    if captured {
      return Score(3, move.destination);
    }

    if originalPiece.state == Yard && pieceInSim.state == Track {
      return Score(2, move.destination);
    }
    if originalPiece.state == Track {
      return Score(1, move.destination);
    }
    return Score(0, 0);
  }

  /** The capture scan of `_get_move_score`: whether some piece of another player was on the track
      before the simulated move and is in the yard after it. */
  method CaptureScan(players: seq<Player>, sim: seq<Player>, cur: nat) returns (captured: bool)
    requires SameShape(players, sim)
    ensures captured == CaptureSeen(players, sim, cur)
  {
    var i := 0;
    while i < |players|
      invariant 0 <= i <= |players|
      invariant forall a, j :: 0 <= a < i && a != cur && 0 <= j < |players[a].pieces| ==>
        !(players[a].pieces[j].state == Track && sim[a].pieces[j].state == Yard)
    {
      if i != cur {
        var j := 0;
        while j < |players[i].pieces|
          invariant 0 <= j <= |players[i].pieces|
          invariant forall u :: 0 <= u < j ==> !(players[i].pieces[u].state == Track && sim[i].pieces[u].state == Yard)
        {
          var originalOpponentPiece := players[i].pieces[j];
          var simOpponentPiece := sim[i].pieces[j];
          if originalOpponentPiece.state == Track && simOpponentPiece.state == Yard {
            return true;
          }
          j := j + 1;
        }
      }
      i := i + 1;
    }

    return false;
  }

  /** `GreedyBot.choose_move`: an empty list is an error; otherwise every move is scored and the
      first of the best-scoring moves is chosen. */
  method ChooseMove(legalMoves: seq<Move>, gameState: GameState) returns (r: Result<Move, string>)
    requires 0 <= gameState.currentPlayerIndex < |gameState.players|
    requires forall t :: 0 <= t < |legalMoves| ==>
      legalMoves[t].piece.player == gameState.currentPlayerIndex && ValidRef(gameState.players, legalMoves[t].piece)
    requires legalMoves != [] ==> gameState.diceRoll.Some?
    ensures legalMoves == [] <==> r.Failure?
    ensures r.Success? ==> r.value == legalMoves[BestIndex(Scores(gameState.players, gameState.currentPlayerIndex,
                                                                   legalMoves, gameState.diceRoll.value))]
  {
    if legalMoves == [] {
      return Failure("No legal moves available to choose from.");
    }
    ghost var players, cur, roll := gameState.players, gameState.currentPlayerIndex, gameState.diceRoll.value;
    var scores := [];
    var t := 0;
    while t < |legalMoves|
      invariant 0 <= t <= |legalMoves| && |scores| == t
      invariant forall u :: 0 <= u < t ==> scores[u] == ScoreOf(players, cur, legalMoves[u], roll)
    {
      var score := MoveScore(legalMoves[t], gameState);
      scores := scores + [score];
      t := t + 1;
    }
    assert scores == Scores(players, cur, legalMoves, roll);
    r := Success(legalMoves[BestIndex(scores)]);
  }

  // ---------------------------------------------------------------------------
  // What the tiers mean for a legal move

  /** No two pieces of the list share an id (as `Player.__post_init__` builds them, ids 0..3). */
  predicate DistinctIds(pieces: seq<Piece>)
  {
    forall a, b :: 0 <= a < b < |pieces| ==> pieces[a].id != pieces[b].id
  }

  /** `square` is an unsafe track square on which a player of another colour than the current one
      has a piece on the track: a piece of the current player landing there captures. */
  predicate HitsOpponent(players: seq<Player>, cur: nat, square: int)
    requires cur < |players|
  {
    && 0 <= square < TRACK_LENGTH && square !in SAFE_SQUARES
    && exists i, j :: 0 <= i < |players| && players[i].color != players[cur].color && 0 <= j < |players[i].pieces|
         && OnTrackAt(players[i].pieces[j], square)
  }

  /** The greedy tiers of a legal move, stated on the move itself: tier 4 exactly for a move to 57
      (HOME); tier 3 exactly for a landing on an opponent's unsafe track square; tier 2 exactly for
      leaving the yard (which never captures, the start square being safe); tier 1 exactly for any
      other move from the track; tier 0 exactly for a home-column move that does not finish. The
      secondary value is the destination in tiers 1 to 3 and 0 otherwise. */
  lemma {:induction false} LegalMoveTiers(players: seq<Player>, cur: nat, roll: int, useBlockingRule: bool, m: Move)
    requires cur < |players| && OwnColours(players) && roll >= 1
    requires AllWellPlaced(players)
    requires DistinctIds(players[cur].pieces)
    requires m in Rules.LegalMoves(players, cur, roll, useBlockingRule)
    ensures m.piece.player == cur && ValidRef(players, m.piece)
    ensures var s, p := ScoreOf(players, cur, m, roll), PieceAt(players, m.piece);
      && (s.tier == 4 <==> m.destination == 57)
      && (s.tier == 3 <==> HitsOpponent(players, cur, m.destination))
      && (s.tier == 2 <==> p.state == Yard)
      && (s.tier == 1 <==> p.state == Track && m.destination != 57 && !HitsOpponent(players, cur, m.destination))
      && (s.tier == 0 <==> p.state == HomeColumn && m.destination != 57)
      && (1 <= s.tier <= 3 ==> s.secondary == m.destination)
      && (s.tier == 0 || s.tier == 4 ==> s.secondary == 0)
  {
    Rules.LegalMovesAreOwnPieces(players, cur, roll, useBlockingRule);
    Rules.LegalMoveMatchesAdvance(players, cur, roll, useBlockingRule, m);
    Rules.NoYardOrHomeMoves(players, cur, roll, useBlockingRule);
    var r := m.piece;
    var p := PieceAt(players, r);
    assert IdIndex(players[cur].pieces, p.id) == r.index;
    SimulatedCapture(players, r, roll);
    SafeSquaresExactly(players[cur].color);
  }

  /** On the copy, the moved piece is where `Advance` puts it, and the capture test of
      `_get_move_score` fires exactly when that is an unsafe track square holding a piece of a
      player of another colour. */
  lemma {:induction false} SimulatedCapture(players: seq<Player>, r: PieceRef, roll: int)
    requires ValidRef(players, r) && OwnColours(players) && roll >= 1
    requires WellPlaced(PieceAt(players, r))
    ensures var sim, mover := ApplyMove(players, r, roll), Advance(PieceAt(players, r), roll);
      && sim[r.player].pieces[r.index] == mover
      && (CaptureSeen(players, sim, r.player) <==> mover.state == Track && HitsOpponent(players, r.player, mover.position))
  {
    var cur := r.player;
    var mover := Advance(PieceAt(players, r), roll);
    AdvanceFollowsJourney(PieceAt(players, r), roll);
    CaptureEffect(players, r, roll);
    var sim := ApplyMove(players, r, roll);
    if CaptureSeen(players, sim, cur) {
      var i, j :| 0 <= i < |players| && i != cur && 0 <= j < |players[i].pieces|
        && players[i].pieces[j].state == Track && sim[i].pieces[j].state == Yard;
      assert PieceRef(i, j) != r;
    }
    if mover.state == Track && HitsOpponent(players, cur, mover.position) {
      var i, j :| 0 <= i < |players| && players[i].color != players[cur].color && 0 <= j < |players[i].pieces|
        && OnTrackAt(players[i].pieces[j], mover.position);
      assert PieceRef(i, j) != r;
      assert sim[i].pieces[j].state == Yard;
    }
  }
}
