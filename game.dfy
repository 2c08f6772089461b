/** The turn controller of ludo/game.py: a game holds its state and, per player, a strategy; a turn
    records the roll, counts sixes, may forfeit, and otherwise moves the piece the strategy picks. */
module Games {
  import opened Wrappers
  import opened Players
  import opened State
  import opened Moves
  import Rules
  import GreedyBots

  /** How a player picks among its legal moves: the greedy bot, or any other strategy (random or
      human), which may return any element of the list. */
  datatype Strategy = GreedyBot | Chooser

  /** The hand-over of `next_player` applied `k` times: the player whose turn it is after `k`
      hand-overs. */
  function AfterHandOvers(index: int, n: int, k: nat): int
    requires n > 0
  {
    if k == 0 then index else NextIndex(AfterHandOvers(index, n, k - 1), n)
  }

  /** Hand-overs go round the table: within one round of `n` hand-overs from a valid index the
      turn goes up to the last player and wraps to the first, so every player has it once, and after
      the round the turn is back where it started. */
  lemma {:induction false} HandOversGoRound(index: int, n: int, k: nat)
    requires 0 <= index < n && k <= n
    ensures AfterHandOvers(index, n, k) == if index + k < n then index + k else index + k - n
  {
    if k > 0 {
      HandOversGoRound(index, n, k - 1);
    }
  }

  /** The seat after `index` round a table of `n`: the next one, wrapping from the last to the
      first. For a valid index this is `(index + 1) % n`, as `StepMod` shows. */
  function NextIndex(index: int, n: int): (next: int)
    ensures 0 <= index < n ==> 0 <= next < n
  {
    if index + 1 < n then index + 1 else 0
  }

  /** The hand-over `(index + 1) % len(players)` of `next_player` is `NextIndex` for a valid index. */
  lemma StepMod(v: int, n: int)
    requires 0 <= v < n
    ensures (v + 1) % n == NextIndex(v, n)
  {
    if v + 1 == n {
      assert (v + 1) / n == 1;
    } else {
      assert (v + 1) / n == 0;
    }
  }

  /** The players who have the turn during `n` hand-overs from `index`. */
  function TurnsInRound(index: int, n: int): set<int>
    requires n > 0
  {
    set k | 0 <= k < n :: AfterHandOvers(index, n, k)
  }

  /** Every player gets the turn within one round of hand-overs, nobody outside the table does, and
      after the round the turn is back where it started. */
  lemma EveryPlayerHasATurn(index: int, n: int)
    requires 0 <= index < n
    ensures forall j :: j in TurnsInRound(index, n) <==> 0 <= j < n
    ensures AfterHandOvers(index, n, n) == index
  {
    HandOversGoRound(index, n, n);
    var visited := TurnsInRound(index, n);
    forall j | 0 <= j < n
      ensures j in visited
    {
      var k := if j >= index then j - index else j - index + n;
      HandOversGoRound(index, n, k);
      assert AfterHandOvers(index, n, k) == j;
    }
    forall k | 0 <= k < n
      ensures 0 <= AfterHandOvers(index, n, k) < n
    {
      HandOversGoRound(index, n, k);
    }
  }

  /** What a strategy may return for the legal moves of the current player: any one of them, and for
      the greedy bot the first of the best-scoring ones. */
  predicate MayPick(strategy: Strategy, players: seq<Player>, cur: nat, legal: seq<Move>, roll: int, m: Move)
    requires cur < |players|
    requires forall t :: 0 <= t < |legal| ==> legal[t].piece.player == cur && ValidRef(players, legal[t].piece)
  {
    && m in legal
    && (strategy == GreedyBot ==> m == legal[GreedyBots.BestIndex(GreedyBots.Scores(players, cur, legal, roll))])
  }

  /** `strategy.choose_move(legal_moves, state)` as `play_turn` calls it, with a non-empty list and
      the roll recorded: the greedy bot scores the moves, any other strategy returns one of them. */
  method Choose(strategy: Strategy, legalMoves: seq<Move>, gameState: GameState) returns (chosen: Move)
    requires 0 <= gameState.currentPlayerIndex < |gameState.players|
    requires forall t :: 0 <= t < |legalMoves| ==>
      legalMoves[t].piece.player == gameState.currentPlayerIndex && ValidRef(gameState.players, legalMoves[t].piece)
    requires legalMoves != [] && gameState.diceRoll.Some?
    ensures MayPick(strategy, gameState.players, gameState.currentPlayerIndex, legalMoves, gameState.diceRoll.value, chosen)
  {
    if strategy == GreedyBot {
      var r := GreedyBots.ChooseMove(legalMoves, gameState);
      chosen := r.value;
    } else {
      var t :| 0 <= t < |legalMoves|;
      chosen := legalMoves[t];
    }
  }

  /** The parts of the game state a turn reads and changes: the players' pieces, whose turn it is,
      the run of sixes, and whether the game is over. */
  datatype TurnState = TurnState(players: seq<Player>, current: int, sixes: int, over: bool)

  /** The turn can be played from `t`: there is a current player, and a strategy for it. */
  predicate Playable(strategies: seq<Strategy>, t: TurnState)
  {
    0 <= t.current < |t.players| <= |strategies|
  }

  /** The second half of `play_turn`: the current player's strategy picks one of the legal moves,
      which is applied; the game is over once all of that player's pieces are HOME; unless it is over
      or the roll was a six, the turn passes and the run of sixes starts over. */
  ghost predicate MoveTaken(strategy: Strategy, before: TurnState, legal: seq<Move>, roll: int, after: TurnState)
    requires 0 <= before.current < |before.players|
    requires forall t :: 0 <= t < |legal| ==>
      legal[t].piece.player == before.current && ValidRef(before.players, legal[t].piece)
  {
    var cur := before.current;
    && |after.players| == |before.players|
    && (exists m :: MayPick(strategy, before.players, cur, legal, roll, m)
          && after.players == ApplyMove(before.players, m.piece, roll))
    && after.over == (before.over || AllHome(after.players[cur].pieces))
    && after.current == (if after.over || roll == 6 then cur else NextIndex(cur, |before.players|))
    && after.sixes == (if after.over || roll == 6 then before.sixes else 0)
  }

  /** The rest of `play_turn` once the run of sixes is counted in `before`, no forfeit applies and
      the legal moves are `legal`: with none nothing moves, and the turn passes unless the roll was a
      six; otherwise a legal move is taken as `MoveTaken` says. */
  ghost predicate TurnProceeded(strategy: Strategy, before: TurnState, legal: seq<Move>, roll: int, after: TurnState)
    requires 0 <= before.current < |before.players|
    requires forall t :: 0 <= t < |legal| ==>
      legal[t].piece.player == before.current && ValidRef(before.players, legal[t].piece)
  {
    if legal == [] then
      after == if roll != 6 then before.(current := NextIndex(before.current, |before.players|), sixes := 0) else before
    else
      MoveTaken(strategy, before, legal, roll, after)
  }

  /** `Game.play_turn` with the given roll, from `before` to `after`. The run of sixes grows on a six
      and starts over on any other roll. With the forfeit rule on, a third six in a row passes the
      turn and nothing moves; otherwise the turn proceeds as `TurnProceeded` says. */
  ghost predicate TurnPlayed(strategies: seq<Strategy>, threeSixForfeit: bool, useBlockingRule: bool,
                             before: TurnState, roll: int, after: TurnState)
    requires Playable(strategies, before)
  {
    var sixes := if roll == 6 then before.sixes + 1 else 0;
    var cur := before.current;
    if threeSixForfeit && sixes == 3 then
      after == before.(current := NextIndex(cur, |before.players|), sixes := 0)
    else
      TurnProceeded(strategies[cur], before.(sixes := sixes), Rules.LegalMoves(before.players, cur, roll, useBlockingRule),
                    roll, after)
  }

  /** A turn leaves the game playable: the current index stays on the table. */
  lemma TurnKeepsPlayable(strategies: seq<Strategy>, threeSixForfeit: bool, useBlockingRule: bool,
                          before: TurnState, roll: int, after: TurnState)
    requires Playable(strategies, before)
    requires TurnPlayed(strategies, threeSixForfeit, useBlockingRule, before, roll, after)
    ensures Playable(strategies, after) && |after.players| == |before.players|
  {
  }

  /** Once over, a game stays over; and a game only ends on a turn after which every piece of the
      player who had the turn is HOME. */
  lemma TurnEndsGameOnlyWhenAllHome(strategies: seq<Strategy>, threeSixForfeit: bool, useBlockingRule: bool,
                                    before: TurnState, roll: int, after: TurnState)
    requires Playable(strategies, before)
    requires TurnPlayed(strategies, threeSixForfeit, useBlockingRule, before, roll, after)
    ensures before.over ==> after.over
    ensures after.over && !before.over ==> AllHome(after.players[before.current].pieces)
  {
  }

  /** With the forfeit rule on, the run of sixes never reaches three: a run of zero to two sixes
      stays in that range after any turn. */
  lemma TurnSixesStayBelowThree(strategies: seq<Strategy>, threeSixForfeit: bool, useBlockingRule: bool,
                                before: TurnState, roll: int, after: TurnState)
    requires Playable(strategies, before)
    requires TurnPlayed(strategies, threeSixForfeit, useBlockingRule, before, roll, after)
    requires threeSixForfeit && 0 <= before.sixes <= 2
    ensures 0 <= after.sixes <= 2
  {
  }

  /** Who plays next: after a roll other than six the turn passes to the next player unless the game
      is over; after a six the same player goes again, unless it was the third six in a row under
      the forfeit rule. So a six that moves the turn on was a forfeit, as `Game._handle_roll`
      reports. */
  lemma TurnPassesUnlessSix(strategies: seq<Strategy>, threeSixForfeit: bool, useBlockingRule: bool,
                            before: TurnState, roll: int, after: TurnState)
    requires Playable(strategies, before)
    requires TurnPlayed(strategies, threeSixForfeit, useBlockingRule, before, roll, after)
    ensures roll != 6 && !after.over ==> after.current == NextIndex(before.current, |before.players|)
    ensures roll == 6 && !(threeSixForfeit && before.sixes == 2) ==> after.current == before.current
    ensures roll == 6 && after.current != before.current ==> threeSixForfeit && before.sixes == 2
  {
    var counted := before.(sixes := if roll == 6 then before.sixes + 1 else 0);
    if !(threeSixForfeit && counted.sixes == 3) {
      var legal := Rules.LegalMoves(before.players, before.current, roll, useBlockingRule);
      assert TurnProceeded(strategies[before.current], counted, legal, roll, after);
    }
  }

  /** The run of sixes after a turn: any other roll ends it; a six lengthens it by one, up to three
      when the forfeit rule is off; and a third six under the forfeit rule ends it and leaves every
      piece and the game-over flag as they were. */
  lemma TurnCountsSixes(strategies: seq<Strategy>, threeSixForfeit: bool, useBlockingRule: bool,
                        before: TurnState, roll: int, after: TurnState)
    requires Playable(strategies, before)
    requires TurnPlayed(strategies, threeSixForfeit, useBlockingRule, before, roll, after)
    ensures roll != 6 ==> after.sixes == 0
    ensures roll == 6 && !(threeSixForfeit && before.sixes == 2) ==> after.sixes == before.sixes + 1
    ensures roll == 6 && threeSixForfeit && before.sixes == 2 ==>
      after.sixes == 0 && after.players == before.players && after.over == before.over
  {
    var counted := before.(sixes := if roll == 6 then before.sixes + 1 else 0);
    if !(threeSixForfeit && counted.sixes == 3) {
      var legal := Rules.LegalMoves(before.players, before.current, roll, useBlockingRule);
      assert TurnProceeded(strategies[before.current], counted, legal, roll, after);
    }
  }

  /** A turn moves at most one piece: either no piece moves, or exactly one legal move of the current
      player is applied. */
  lemma TurnMovesOneLegalMove(strategies: seq<Strategy>, threeSixForfeit: bool, useBlockingRule: bool,
                              before: TurnState, roll: int, after: TurnState)
    requires Playable(strategies, before)
    requires TurnPlayed(strategies, threeSixForfeit, useBlockingRule, before, roll, after)
    ensures || after.players == before.players
            || exists m :: m in Rules.LegalMoves(before.players, before.current, roll, useBlockingRule)
                 && after.players == ApplyMove(before.players, m.piece, roll)
  {
  }

  /** A turn keeps every piece in a place its state allows and every player's pieces in that
      player's colour, for any roll a die can show. */
  lemma {:induction false} TurnKeepsWellPlaced(strategies: seq<Strategy>, threeSixForfeit: bool, useBlockingRule: bool,
                                               before: TurnState, roll: int, after: TurnState)
    requires Playable(strategies, before)
    requires TurnPlayed(strategies, threeSixForfeit, useBlockingRule, before, roll, after)
    requires roll >= 1 && OwnColours(before.players) && AllWellPlaced(before.players)
    ensures OwnColours(after.players) && AllWellPlaced(after.players)
  {
    var sixes := if roll == 6 then before.sixes + 1 else 0;
    var legal := Rules.LegalMoves(before.players, before.current, roll, useBlockingRule);
    if !(threeSixForfeit && sixes == 3) && legal != [] {
      var m :| MayPick(strategies[before.current], before.players, before.current, legal, roll, m)
                 && after.players == ApplyMove(before.players, m.piece, roll);
      MoveKeepsWellPlaced(before.players, m.piece, roll);
    }
  }

  class Game {
    /** One strategy per player, by index. */
    const strategies: seq<Strategy>
    const threeSixForfeit: bool
    const useBlockingRule: bool
    const state: GameState

    /** The turn can be played: there is a current player, and a strategy for it. */
    predicate Valid()
      reads this, state
    {
      Playable(strategies, Snapshot())
    }

    /** The parts of the state a turn reads and changes. */
    function Snapshot(): TurnState
      reads this, state
    {
      TurnState(state.players, state.currentPlayerIndex, state.consecutiveSixes, state.isGameOver)
    }

    /** `Game.__init__`: a given state is used as it is; otherwise a fresh state of the players is
        made, carrying the dice's seed. The dice itself is not modelled, only its seed. */
    constructor (players: seq<Player>, strategies: seq<Strategy>, diceSeed: Option<int>,
                 state: Option<GameState> := None, threeSixForfeit: bool := true, useBlockingRule: bool := true)
      ensures this.strategies == strategies
      ensures this.threeSixForfeit == threeSixForfeit && this.useBlockingRule == useBlockingRule
      ensures state.Some? ==> this.state == state.value
      ensures state.None? ==> fresh(this.state) && this.state.players == players
      ensures state.None? ==> this.state.currentPlayerIndex == 0 && this.state.diceRoll == None
      ensures state.None? ==> !this.state.isGameOver && this.state.consecutiveSixes == 0
      ensures state.None? ==> this.state.diceSeed == diceSeed
    {
      this.strategies := strategies;
      this.threeSixForfeit := threeSixForfeit;
      this.useBlockingRule := useBlockingRule;
      if state.Some? {
        this.state := state.value;
      } else {
        this.state := new GameState(players, diceSeed := diceSeed);
      }
    }

    /** `Game.next_player`: the turn passes to the next player round the table and the run of sixes
        starts over. */
    method NextPlayer()
      requires Valid()
      modifies state`currentPlayerIndex, state`consecutiveSixes
      ensures Valid()
      ensures state.currentPlayerIndex == NextIndex(old(state.currentPlayerIndex), |state.players|)
      ensures state.consecutiveSixes == 0
    {
      StepMod(state.currentPlayerIndex, |state.players|);
      state.currentPlayerIndex := (state.currentPlayerIndex + 1) % |state.players|;
      state.consecutiveSixes := 0;
    }

    /** `Game.play_turn` with the given roll. The roll is recorded and the run of sixes counted. With
        the forfeit rule on, a third six in a row passes the turn and nothing moves. With no legal
        move nothing moves either, and the turn passes unless the roll was a six. Otherwise the
        current player's strategy picks one of the legal moves and it is applied; the turn then
        passes unless the roll was a six or the game is over. */
    method PlayTurn(roll: int)
      requires Valid()
      modifies state`players, state`currentPlayerIndex, state`diceRoll, state`isGameOver, state`consecutiveSixes
      ensures Valid()
      ensures state.diceRoll == Some(roll)
      ensures TurnPlayed(strategies, threeSixForfeit, useBlockingRule, old(Snapshot()), roll, Snapshot())
    {
      ghost var before := Snapshot();
      state.diceRoll := Some(roll);

      if roll == 6 {
        state.consecutiveSixes := state.consecutiveSixes + 1;
      } else {
        state.consecutiveSixes := 0;
      }

      if threeSixForfeit && state.consecutiveSixes == 3 {
        NextPlayer();
        return;
      }

      var legalMoves := Rules.GetLegalMoves(state, roll, useBlockingRule);
      Proceed(legalMoves, roll);
    }

    /** The rest of `play_turn` once the legal moves are found: with none, the turn passes unless the
        roll was a six; otherwise one is taken. */
    method Proceed(legalMoves: seq<Move>, roll: int)
      requires Valid() && state.diceRoll == Some(roll)
      requires forall t :: 0 <= t < |legalMoves| ==>
        legalMoves[t].piece.player == state.currentPlayerIndex && ValidRef(state.players, legalMoves[t].piece)
      modifies state`players, state`currentPlayerIndex, state`isGameOver, state`consecutiveSixes
      ensures Valid()
      ensures TurnProceeded(strategies[old(state.currentPlayerIndex)], old(Snapshot()), legalMoves, roll, Snapshot())
    {
      if legalMoves == [] {
        if roll != 6 {
          NextPlayer();
        }
        return;
      }

      MoveChosen(legalMoves, roll);
    }

    /** The second half of `play_turn`, once there are legal moves: the current player's strategy
        picks one, it is applied, and the turn passes unless the roll was a six or the game is now
        over. */
    method MoveChosen(legalMoves: seq<Move>, roll: int)
      requires Valid() && state.diceRoll == Some(roll) && legalMoves != []
      requires forall t :: 0 <= t < |legalMoves| ==>
        legalMoves[t].piece.player == state.currentPlayerIndex && ValidRef(state.players, legalMoves[t].piece)
      modifies state`players, state`isGameOver, state`currentPlayerIndex, state`consecutiveSixes
      ensures Valid()
      ensures MoveTaken(strategies[old(state.currentPlayerIndex)], old(Snapshot()), legalMoves, roll, Snapshot())
    {
      ghost var players0 := state.players;
      var cur := state.currentPlayerIndex;
      var chosenMove := Choose(strategies[cur], legalMoves, state);
      MovePiece(state, chosenMove.piece, roll);
      assert state.players == ApplyMove(players0, chosenMove.piece, roll);

      if state.isGameOver {
        return;
      }

      if roll != 6 {
        NextPlayer();
      }
    }
  }
}
