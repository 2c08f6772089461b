/** Legal-move generation of ludo/rules.py: yard exit on a six, track and home-column advances,
    and the blockade rule. */
module Rules {
  import opened Wrappers
  import opened Constants
  import opened Board
  import opened Pieces
  import opened Players
  import opened State
  import opened Moves

  /** How many pieces of the list stand on the track on `square`. */
  function CountOnTrackAt(pieces: seq<Piece>, square: int): (c: nat)
    ensures c <= |pieces|
  {
    if pieces == [] then 0
    else CountOnTrackAt(pieces[..|pieces| - 1], square) + (if OnTrackAt(pieces[|pieces| - 1], square) then 1 else 0)
  }

  /** Some piece of the list stands on the track on `square` exactly when the count is positive. */
  lemma {:induction false} OneOnSquare(pieces: seq<Piece>, square: int)
    ensures CountOnTrackAt(pieces, square) >= 1 <==> exists a :: 0 <= a < |pieces| && OnTrackAt(pieces[a], square)
  {
    if pieces != [] {
      var front, n := pieces[..|pieces| - 1], |pieces| - 1;
      OneOnSquare(front, square);
      if exists a :: 0 <= a < n && OnTrackAt(front[a], square) {
        var a :| 0 <= a < n && OnTrackAt(front[a], square);
        assert OnTrackAt(pieces[a], square);
      }
      if exists a :: 0 <= a < |pieces| && OnTrackAt(pieces[a], square) {
        var a :| 0 <= a < |pieces| && OnTrackAt(pieces[a], square);
        if a < n {
          assert OnTrackAt(front[a], square);
        }
      }
    }
  }

  /** At least two of the list's pieces stand on the track on `square` exactly when the count says so. */
  lemma {:induction false} TwoOnSquare(pieces: seq<Piece>, square: int)
    ensures CountOnTrackAt(pieces, square) >= 2 <==>
      exists a, b :: 0 <= a < b < |pieces| && OnTrackAt(pieces[a], square) && OnTrackAt(pieces[b], square)
  {
    if pieces != [] {
      var front, n := pieces[..|pieces| - 1], |pieces| - 1;
      TwoOnSquare(front, square);
      OneOnSquare(front, square);
      if CountOnTrackAt(pieces, square) >= 2 {
        if OnTrackAt(pieces[n], square) {
          var a :| 0 <= a < n && OnTrackAt(front[a], square);
          assert OnTrackAt(pieces[a], square) && OnTrackAt(pieces[n], square);
        } else {
          var a, b :| 0 <= a < b < n && OnTrackAt(front[a], square) && OnTrackAt(front[b], square);
          assert OnTrackAt(pieces[a], square) && OnTrackAt(pieces[b], square);
        }
      }
      if exists a, b :: 0 <= a < b < |pieces| && OnTrackAt(pieces[a], square) && OnTrackAt(pieces[b], square) {
        var a, b :| 0 <= a < b < |pieces| && OnTrackAt(pieces[a], square) && OnTrackAt(pieces[b], square);
        assert OnTrackAt(front[a], square);
        if b < n {
          assert OnTrackAt(front[b], square);
        }
      }
    }
  }

  /** A square is blocked for `color` when some player of another colour has at least two of its
      pieces on the track there. */
  predicate IsBlocked(players: seq<Player>, square: int, color: PlayerColor)
  {
    exists i :: 0 <= i < |players| && players[i].color != color && CountOnTrackAt(players[i].pieces, square) >= 2
  }

  /** `Rules.is_square_blocked_by_opponent`: counts each opponent's track pieces on the square. */
  method IsSquareBlockedByOpponent(squarePosition: int, currentPlayerColor: PlayerColor, gameState: GameState)
    returns (blocked: bool)
    ensures blocked == IsBlocked(gameState.players, squarePosition, currentPlayerColor)
  {
    var players := gameState.players;
    var i := 0;
    while i < |players|
      invariant 0 <= i <= |players|
      invariant forall t :: 0 <= t < i && players[t].color != currentPlayerColor ==>
        CountOnTrackAt(players[t].pieces, squarePosition) < 2
    {
      var player := players[i];
      if player.color != currentPlayerColor {
        var opponentPiecesOnSquare := 0;
        var j := 0;
        while j < |player.pieces|
          invariant 0 <= j <= |player.pieces|
          invariant opponentPiecesOnSquare == CountOnTrackAt(player.pieces[..j], squarePosition)
        {
          var piece := player.pieces[j];
          assert player.pieces[..j + 1][..j] == player.pieces[..j];
          if piece.position == squarePosition && piece.state == Track {
            opponentPiecesOnSquare := opponentPiecesOnSquare + 1;
          }
          j := j + 1;
        }
        assert player.pieces[..j] == player.pieces;
        if opponentPiecesOnSquare >= 2 {
          return true;
        }
      }
      i := i + 1;
    }
    return false;
  }

  /** No square passed over by a piece leaving `position` with `roll` is blocked: the squares
      `(position + i) mod 52` for 1 <= i < roll. The landing square is not checked, and neither is
      whether the step already lies in the home column. */
  predicate PathClear(players: seq<Player>, color: PlayerColor, position: int, roll: int)
  {
    forall i :: 1 <= i < roll ==> !IsBlocked(players, StepSquare(position, i), color)
  }

  /** The track square `i` steps after `position`. */
  function StepSquare(position: int, i: int): int
  {
    (position + i) % TRACK_LENGTH
  }

  /** The index of the first piece in the yard, if any: the head of
      `[p for p in pieces if p.state == YARD]`. */
  function FirstInYard(pieces: seq<Piece>): (k: Option<nat>)
    ensures k.Some? ==> k.value < |pieces| && pieces[k.value].state == Yard
    ensures k.Some? ==> forall j :: 0 <= j < k.value ==> pieces[j].state != Yard
    ensures k.None? <==> forall j :: 0 <= j < |pieces| ==> pieces[j].state != Yard
  {
    if pieces == [] then None
    else if pieces[0].state == Yard then Some(0)
    else
      match FirstInYard(pieces[1..])
      case None => None
      case Some(k) => Some(k + 1)
  }

  /** The yard-exit candidate: on a six, the first yard piece moves to the player's start square. */
  function YardExit(players: seq<Player>, cur: nat, roll: int): (moves: seq<Move>)
    requires cur < |players|
    ensures |moves| <= 1
    ensures moves != [] <==> roll == 6 && FirstInYard(players[cur].pieces).Some?
    ensures moves != [] ==>
      moves[0] == Move(PieceRef(cur, FirstInYard(players[cur].pieces).value), StartSquare(players[cur].color))
  {
    var firstYard := FirstInYard(players[cur].pieces);
    if roll == 6 && firstYard.Some? then [Move(PieceRef(cur, firstYard.value), StartSquare(players[cur].color))]
    else []
  }

  /** Where the current player's piece `k` may go with `roll`, if anywhere (the loop body of
      `get_legal_moves`). Yard and HOME pieces get nothing here. */
  function Destination(players: seq<Player>, cur: nat, k: nat, roll: int, useBlockingRule: bool): (d: Option<int>)
    requires cur < |players| && k < |players[cur].pieces|
    ensures d.Some? ==> players[cur].pieces[k].state == Track || players[cur].pieces[k].state == HomeColumn
    ensures d.Some? ==> d.value < 52 + HOME_COLUMN_LENGTH
  {
    var piece := players[cur].pieces[k];
    var color := players[cur].color;
    match piece.state
    case Track =>
      var newProgress := Progress(piece.position, StartSquare(color)) + roll;
      if useBlockingRule && !PathClear(players, color, piece.position, roll) then None
      else if newProgress < 51 then Some((piece.position + roll) % TRACK_LENGTH)
      else if newProgress < 51 + HOME_COLUMN_LENGTH then Some(52 + (newProgress - 51))
      else None
    case HomeColumn =>
      var newHomePos := piece.position - 52 + roll;
      if newHomePos < HOME_COLUMN_LENGTH then Some(52 + newHomePos) else None
    case _ => None
  }

  /** The moves of the loop of `get_legal_moves` over the current player's first `n` pieces, in
      piece order; each is a move of one of those pieces. */
  function PieceMoves(players: seq<Player>, cur: nat, roll: int, useBlockingRule: bool, n: nat): (moves: seq<Move>)
    requires cur < |players| && n <= |players[cur].pieces|
    ensures forall t :: 0 <= t < |moves| ==> moves[t].piece.player == cur && moves[t].piece.index < n
  {
    if n == 0 then []
    else PieceMoves(players, cur, roll, useBlockingRule, n - 1) + CandidateOf(players, cur, n - 1, roll, useBlockingRule)
  }

  /** The move of the current player's piece `k`, if it has one, as a list of zero or one moves. */
  function CandidateOf(players: seq<Player>, cur: nat, k: nat, roll: int, useBlockingRule: bool): (c: seq<Move>)
    requires cur < |players| && k < |players[cur].pieces|
    ensures |c| <= 1 && forall t :: 0 <= t < |c| ==> c[t].piece == PieceRef(cur, k)
  {
    match Destination(players, cur, k, roll, useBlockingRule)
    case Some(d) => [Move(PieceRef(cur, k), d)]
    case None => []
  }

  /** The result of `Rules.get_legal_moves`: the yard exit first, then the other pieces in order. */
  function LegalMoves(players: seq<Player>, cur: nat, roll: int, useBlockingRule: bool): (moves: seq<Move>)
    requires cur < |players|
    ensures forall t :: 0 <= t < |moves| ==> moves[t].piece.player == cur && ValidRef(players, moves[t].piece)
  {
    YardExit(players, cur, roll) + PieceMoves(players, cur, roll, useBlockingRule, |players[cur].pieces|)
  }

  /** `Rules.get_legal_moves`: reads the state and changes nothing. */
  method GetLegalMoves(gameState: GameState, roll: int, useBlockingRule: bool) returns (legalMoves: seq<Move>)
    requires 0 <= gameState.currentPlayerIndex < |gameState.players|
    ensures legalMoves == LegalMoves(gameState.players, gameState.currentPlayerIndex, roll, useBlockingRule)
  {
    var cur := gameState.currentPlayerIndex;
    var player := gameState.players[cur];
    var yardMoves := YardExitMove(gameState, roll);
    ghost var players := gameState.players;

    var pieceMoves := [];
    var k := 0;
    while k < |player.pieces|
      invariant 0 <= k <= |player.pieces|
      invariant pieceMoves == PieceMoves(players, cur, roll, useBlockingRule, k)
    {
      var candidate := PieceCandidate(gameState, k, roll, useBlockingRule);
      PieceMovesStep(players, cur, roll, useBlockingRule, k);
      pieceMoves := pieceMoves + candidate;
      k := k + 1;
    }
    legalMoves := yardMoves + pieceMoves;
  }

  /** The first part of `get_legal_moves`: on a six, the first piece in the yard may enter the track
      at its colour's start square. */
  method YardExitMove(gameState: GameState, roll: int) returns (moves: seq<Move>)
    requires 0 <= gameState.currentPlayerIndex < |gameState.players|
    ensures moves == YardExit(gameState.players, gameState.currentPlayerIndex, roll)
  {
    var cur := gameState.currentPlayerIndex;
    var player := gameState.players[cur];
    moves := [];
    var startSquare := StartSquare(player.color);
    if roll == 6 {
      var firstYard := FirstInYard(player.pieces);
      if firstYard.Some? {
        moves := moves + [Move(PieceRef(cur, firstYard.value), startSquare)];
      }
    }
  }

  lemma PieceMovesStep(players: seq<Player>, cur: nat, roll: int, useBlockingRule: bool, k: nat)
    requires cur < |players| && k < |players[cur].pieces|
    ensures PieceMoves(players, cur, roll, useBlockingRule, k + 1)
            == PieceMoves(players, cur, roll, useBlockingRule, k) + CandidateOf(players, cur, k, roll, useBlockingRule)
  {
  }

  /** One round of the loop of `get_legal_moves`: the move of the current player's piece `k`, if it
      has one, as a list of zero or one moves. */
  method PieceCandidate(gameState: GameState, k: nat, roll: int, useBlockingRule: bool) returns (candidate: seq<Move>)
    requires 0 <= gameState.currentPlayerIndex < |gameState.players|
    requires k < |gameState.players[gameState.currentPlayerIndex].pieces|
    ensures candidate == CandidateOf(gameState.players, gameState.currentPlayerIndex, k, roll, useBlockingRule)
  {
    var cur := gameState.currentPlayerIndex;
    var player := gameState.players[cur];
    var startSquare := StartSquare(player.color);
    var piece := player.pieces[k];
    candidate := [];
    if piece.state == Track {
      var currentProgress := Progress(piece.position, startSquare);
      var newProgress := currentProgress + roll;

      var pathIsClear := true;
      if useBlockingRule {
        pathIsClear := PathIsClear(gameState, player.color, piece.position, roll);
      }

      if pathIsClear {
        if newProgress < 51 {
          var destination := (piece.position + roll) % TRACK_LENGTH;
          candidate := [Move(PieceRef(cur, k), destination)];
        } else if newProgress < 51 + HOME_COLUMN_LENGTH {
          var homeColPos := newProgress - 51;
          var destination := 52 + homeColPos;
          candidate := [Move(PieceRef(cur, k), destination)];
        }
      }
    } else if piece.state == HomeColumn {
      var currentHomePos := piece.position - 52;
      var newHomePos := currentHomePos + roll;
      if newHomePos < HOME_COLUMN_LENGTH {
        var destination := 52 + newHomePos;
        candidate := [Move(PieceRef(cur, k), destination)];
      }
    }
  }

  /** The intermediate-square walk of `get_legal_moves` (rules.py lines 61-69): stops at the first
      blocked square `(position + i) mod 52`, 1 <= i < roll. */
  method PathIsClear(gameState: GameState, color: PlayerColor, position: int, roll: int) returns (pathIsClear: bool)
    ensures pathIsClear == PathClear(gameState.players, color, position, roll)
  {
    pathIsClear := true;
    var i := 1;
    while i < roll
      invariant 1 <= i && (roll >= 1 ==> i <= roll)
      invariant forall t :: 1 <= t < i ==> !IsBlocked(gameState.players, StepSquare(position, t), color)
    {
      var intermediateSquare := (position + i) % TRACK_LENGTH;
      var blocked := IsSquareBlockedByOpponent(intermediateSquare, color, gameState);
      if blocked {
        assert StepSquare(position, i) == intermediateSquare;
        pathIsClear := false;
        break;
      }
      i := i + 1;
    }
  }

  // ---------------------------------------------------------------------------
  // Properties of the legal-move list

  /** A square is blocked for `color` exactly when some player of another colour has two distinct
      pieces of its own on the track there. */
  lemma BlockedMeansTwoPieces(players: seq<Player>, square: int, color: PlayerColor)
    ensures IsBlocked(players, square, color) <==>
      exists i, a, b :: 0 <= i < |players| && players[i].color != color && 0 <= a < b < |players[i].pieces|
        && OnTrackAt(players[i].pieces[a], square) && OnTrackAt(players[i].pieces[b], square)
  {
    forall i | 0 <= i < |players| {
      TwoOnSquare(players[i].pieces, square);
    }
  }

  /** The loop's moves over the first `n` pieces are exactly, for each of those pieces that has a
      destination, its move to that destination. */
  lemma PieceMovesMembers(players: seq<Player>, cur: nat, roll: int, useBlockingRule: bool, n: nat)
    requires cur < |players| && n <= |players[cur].pieces|
    ensures forall m :: m in PieceMoves(players, cur, roll, useBlockingRule, n) <==>
      && m.piece.player == cur && m.piece.index < n
      && Destination(players, cur, m.piece.index, roll, useBlockingRule) == Some(m.destination)
  {
    forall m
      ensures m in PieceMoves(players, cur, roll, useBlockingRule, n) <==>
        && m.piece.player == cur && m.piece.index < n
        && Destination(players, cur, m.piece.index, roll, useBlockingRule) == Some(m.destination)
    {
      PieceMoveMember(players, cur, roll, useBlockingRule, n, m);
    }
  }

  lemma {:induction false} PieceMoveMember(players: seq<Player>, cur: nat, roll: int, useBlockingRule: bool, n: nat, m: Move)
    requires cur < |players| && n <= |players[cur].pieces|
    ensures m in PieceMoves(players, cur, roll, useBlockingRule, n) <==>
      && m.piece.player == cur && m.piece.index < n
      && Destination(players, cur, m.piece.index, roll, useBlockingRule) == Some(m.destination)
  {
    if n > 0 {
      var prefix := PieceMoves(players, cur, roll, useBlockingRule, n - 1);
      var cand := CandidateOf(players, cur, n - 1, roll, useBlockingRule);
      PieceMoveMember(players, cur, roll, useBlockingRule, n - 1, m);
      assert m in prefix + cand <==> m in prefix || m in cand;
      CandidateMembers(players, cur, n - 1, roll, useBlockingRule, m);
    }
  }

  /** A piece's candidate list holds a move exactly when it is that piece's move to its destination. */
  lemma CandidateMembers(players: seq<Player>, cur: nat, k: nat, roll: int, useBlockingRule: bool, m: Move)
    requires cur < |players| && k < |players[cur].pieces|
    ensures m in CandidateOf(players, cur, k, roll, useBlockingRule) <==>
      m.piece == PieceRef(cur, k) && Destination(players, cur, k, roll, useBlockingRule) == Some(m.destination)
  {
  }

  /** The loop's moves come in strictly increasing piece order, so no piece is offered twice. */
  lemma {:induction false} PieceMovesIncreasing(players: seq<Player>, cur: nat, roll: int, useBlockingRule: bool, n: nat)
    requires cur < |players| && n <= |players[cur].pieces|
    ensures forall s, t :: 0 <= s < t < |PieceMoves(players, cur, roll, useBlockingRule, n)| ==>
      PieceMoves(players, cur, roll, useBlockingRule, n)[s].piece.index
        < PieceMoves(players, cur, roll, useBlockingRule, n)[t].piece.index
  {
    if n > 0 {
      var prefix := PieceMoves(players, cur, roll, useBlockingRule, n - 1);
      var cand := CandidateOf(players, cur, n - 1, roll, useBlockingRule);
      PieceMovesIncreasing(players, cur, roll, useBlockingRule, n - 1);
      var moves := prefix + cand;
      forall s, t | 0 <= s < t < |moves|
        ensures moves[s].piece.index < moves[t].piece.index
      {
        if t >= |prefix| {
          assert t == |prefix| && s < |prefix|;
          assert moves[t] == cand[0] && moves[s] == prefix[s];
        } else {
          assert moves[t] == prefix[t] && moves[s] == prefix[s];
        }
      }
    }
  }

  /** Every legal move is a move of one of the current player's own pieces, and no piece is offered
      twice. */
  lemma {:induction false} LegalMovesAreOwnPieces(players: seq<Player>, cur: nat, roll: int, useBlockingRule: bool)
    requires cur < |players|
    ensures var moves := LegalMoves(players, cur, roll, useBlockingRule);
      && (forall m :: m in moves ==> m.piece.player == cur && ValidRef(players, m.piece))
      && (forall s, t :: 0 <= s < t < |moves| ==> moves[s].piece != moves[t].piece)
  {
    var n := |players[cur].pieces|;
    var yard, rest := YardExit(players, cur, roll), PieceMoves(players, cur, roll, useBlockingRule, n);
    var moves := yard + rest;
    PieceMovesMembers(players, cur, roll, useBlockingRule, n);
    PieceMovesIncreasing(players, cur, roll, useBlockingRule, n);
    forall s, t | 0 <= s < t < |moves|
      ensures moves[s].piece != moves[t].piece
    {
      if s < |yard| {
        var other := rest[t - |yard|];
        assert moves[t] == other && other in rest;
        assert Destination(players, cur, other.piece.index, roll, useBlockingRule).Some?;
        assert players[cur].pieces[other.piece.index].state != Yard;
        assert PieceAt(players, moves[s].piece).state == Yard;
      } else {
        assert moves[s] == rest[s - |yard|] && moves[t] == rest[t - |yard|];
      }
    }
  }

  /** A legal move is the yard exit or a move of one of the current player's pieces to its destination,
      and every such move is legal. */
  lemma LegalMovesMembers(players: seq<Player>, cur: nat, roll: int, useBlockingRule: bool)
    requires cur < |players|
    ensures forall m :: m in LegalMoves(players, cur, roll, useBlockingRule) <==>
      || m in YardExit(players, cur, roll)
      || (&& m.piece.player == cur && m.piece.index < |players[cur].pieces|
          && Destination(players, cur, m.piece.index, roll, useBlockingRule) == Some(m.destination))
  {
    var n := |players[cur].pieces|;
    PieceMovesMembers(players, cur, roll, useBlockingRule, n);
    forall m
      ensures m in LegalMoves(players, cur, roll, useBlockingRule) <==>
        m in YardExit(players, cur, roll) || m in PieceMoves(players, cur, roll, useBlockingRule, n)
    {
    }
  }

  /** The yard rule: on a six with a piece in the yard, the first legal move takes the first yard piece
      (in list order) to the player's start square, and it is the only legal move of a yard piece. */
  lemma {:induction false} YardExitFirst(players: seq<Player>, cur: nat, roll: int, useBlockingRule: bool)
    requires cur < |players| && roll == 6
    requires exists j :: 0 <= j < |players[cur].pieces| && players[cur].pieces[j].state == Yard
    ensures var moves, pieces := LegalMoves(players, cur, roll, useBlockingRule), players[cur].pieces;
      && |moves| > 0 && moves[0].piece.player == cur && moves[0].piece.index < |pieces|
      && moves[0].destination == StartSquare(players[cur].color)
      && pieces[moves[0].piece.index].state == Yard
      && (forall j :: 0 <= j < moves[0].piece.index ==> pieces[j].state != Yard)
      && (forall t :: 1 <= t < |moves| ==> PieceAt(players, moves[t].piece).state != Yard)
  {
    var pieces := players[cur].pieces;
    var moves := LegalMoves(players, cur, roll, useBlockingRule);
    var yard, rest := YardExit(players, cur, roll), PieceMoves(players, cur, roll, useBlockingRule, |pieces|);
    PieceMovesMembers(players, cur, roll, useBlockingRule, |pieces|);
    assert |yard| == 1 && moves == yard + rest;
    forall t | 1 <= t < |moves|
      ensures PieceAt(players, moves[t].piece).state != Yard
    {
      assert moves[t] == rest[t - 1] && rest[t - 1] in rest;
    }
  }

  /** On a roll other than six no yard piece may move, and a HOME piece never may. */
  lemma {:induction false} NoYardOrHomeMoves(players: seq<Player>, cur: nat, roll: int, useBlockingRule: bool)
    requires cur < |players|
    ensures var moves := LegalMoves(players, cur, roll, useBlockingRule);
      roll != 6 ==> forall m :: m in moves ==> PieceAt(players, m.piece).state != Yard
    ensures var moves := LegalMoves(players, cur, roll, useBlockingRule);
      forall m :: m in moves ==> PieceAt(players, m.piece).state != Home
  {
    LegalMovesMembers(players, cur, roll, useBlockingRule);
  }

  /** Legal moves agree with move application: for pieces in their owner's colour, a legal move's
      destination is exactly where `move_piece` puts the piece, and the piece ends on the track below
      52, in the home column at 52..56, or HOME at 57. */
  lemma {:induction false} LegalMoveMatchesAdvance(players: seq<Player>, cur: nat, roll: int, useBlockingRule: bool, m: Move)
    requires cur < |players| && OwnColours(players) && roll >= 1
    requires forall j :: 0 <= j < |players[cur].pieces| ==> WellPlaced(players[cur].pieces[j])
    requires m in LegalMoves(players, cur, roll, useBlockingRule)
    ensures ValidRef(players, m.piece)
    ensures var q := Advance(PieceAt(players, m.piece), roll);
      && q.position == m.destination
      && (q.state == Track <==> m.destination < 52)
      && (q.state == HomeColumn <==> 52 <= m.destination < 57)
      && (q.state == Home <==> m.destination == 57)
  {
    LegalMovesMembers(players, cur, roll, useBlockingRule);
    var p := PieceAt(players, m.piece);
    assert p.color == players[cur].color;
    if m in YardExit(players, cur, roll) {
      assert p.state == Yard;
    }
  }

  /** Which pieces on the track or in the home column have a legal move: exactly those whose move
      would not pass HOME and, for a track piece under the blocking rule, whose intermediate squares
      are not blocked. */
  lemma {:induction false} MovableExactly(players: seq<Player>, cur: nat, roll: int, useBlockingRule: bool, k: nat)
    requires cur < |players| && k < |players[cur].pieces| && OwnColours(players)
    requires players[cur].pieces[k].state == Track || players[cur].pieces[k].state == HomeColumn
    ensures var p := players[cur].pieces[k];
      (exists d :: Move(PieceRef(cur, k), d) in LegalMoves(players, cur, roll, useBlockingRule)) <==>
        && Journey(p) + roll <= FINISH
        && (p.state == Track && useBlockingRule ==> PathClear(players, players[cur].color, p.position, roll))
  {
    var p := players[cur].pieces[k];
    LegalMovesMembers(players, cur, roll, useBlockingRule);
    assert p.color == players[cur].color;
    match Destination(players, cur, k, roll, useBlockingRule)
    case Some(d) =>
      assert Move(PieceRef(cur, k), d) in LegalMoves(players, cur, roll, useBlockingRule);
    case None =>
      forall d | Move(PieceRef(cur, k), d) in LegalMoves(players, cur, roll, useBlockingRule)
        ensures false
      {
      }
  }
}
