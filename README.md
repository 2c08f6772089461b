# Ludo rules engine, modelled in Dafny

This project models the rules core of a Ludo game engine. It covers:

- the board geometry: a 52-square track, four start squares, eight safe squares, and a six-square home column encoded as positions 52..57;
- the pieces, players and game state, and their conversion to and from the serialisable records with a schema-version check;
- the legal-move generator, including the blockade rule;
- move application: leaving the yard, advancing on the track, entering the home column, exact-roll finish, capture, and win detection;
- the turn controller: the run of sixes, the three-sixes forfeit, the extra turn on a six, and rotation of the turn;
- the greedy bot, which scores every legal move by simulating it on a copy of the state.

Each Python module has one Dafny module:

| Python module | Dafny module and file |
|---|---|
| `ludo/utils/constants.py` | `Constants` (`constants.dfy`) |
| `ludo/board.py` | `Board` (`board.dfy`) |
| `ludo/piece.py` | `Pieces` (`piece.dfy`) |
| `ludo/player.py` | `Players` (`player.dfy`) |
| `ludo/serialization.py` | `Serialization` (`serialization.dfy`) |
| `ludo/state.py` | `State` (`state.dfy`) |
| `ludo/move.py` | `Moves` (`move.dfy`) |
| `ludo/rules.py` | `Rules` (`rules.dfy`) |
| `ludo/bots/greedy_bot.py` | `GreedyBots` (`greedy_bot.dfy`) |
| `ludo/game.py` | `Games` (`game.dfy`) |

`Wrappers` (`wrappers.dfy`) holds `Option` and `Result`.

How each part is modelled:

- **Pieces and players are values.** Pieces, players and the serialised records are datatypes. Converting to and from the records gives new values, as the Python comprehensions do.
- **The game state is a class.** `GameState` is a class with the six dataclass fields. The operations that change it in place are methods that reassign those fields: `move_piece`, `play_turn` and `next_player`. Their `modifies` clauses name the exact fields each one may change.
- **Pieces are referred to by position.** Python passes the piece object itself. Here a piece is named by `PieceRef(player index, piece index)`, and a move is `Move(piece, destination)`.
- **Loops stay loops.** The loops of the source are `while` loops, each proved equal to a specification function. The loop of `get_legal_moves` gives `LegalMoves`, and its blockade walk gives `PathClear`. The loop of `is_square_blocked_by_opponent` gives `IsBlocked`. The capture scan of `move_piece` gives `CaptureAll`. The capture scan of the greedy bot gives `CaptureSeen`, and its scoring loop gives `Scores`. The simulation of one move by `_get_move_score` gives `ScoreOf`.
- **The properties are lemmas about those functions.** Lemmas state what the Python code promises in terms of those functions. A turn is specified by the ghost predicate `TurnPlayed`, which relates the turn-relevant part of the state before and after (`TurnState`). The turn lemmas (`Turn...`) are stated over that predicate.

Where the declared record and the code that uses it disagree, the model follows the code. `PlayerData` in `ludo/serialization.py:19-23` declares only `color` and `pieces`. But `Player.to_serializable` (`ludo/player.py:29-33`) builds it with `role=`, and `Player.from_serializable` (`ludo/player.py:40`) reads `data.role`. As written, `Player.to_serializable` and `load_game` (`ludo/persistence.py:44`) therefore raise TypeError on the unexpected `role` argument, so no player can be saved or loaded. The model corrects this by giving `Serialization.PlayerData` a `role` field, so the player round trip is total and restores the role.

A strategy is `GreedyBot` or `Chooser`. `Chooser` stands for any other strategy, random or human: it may return any element of the non-empty list it is given.

## Model

| member | source | states |
|---|---|---|
| Constants.ColorByName | ludo/utils/constants.py:7-11 | `PlayerColor[name]` returns a member whose name is `name`. It fails (KeyError) exactly when no colour has that name. |
| Constants.StateByName | ludo/utils/constants.py:14-18 | `PieceState[name]` returns a member whose name is `name`. It fails exactly when no state has that name. |
| Constants.FourMembersEach | ludo/utils/constants.py:7-18 | Each enum has exactly four distinct members: RED, GREEN, YELLOW, BLUE and YARD, TRACK, HOME_COLUMN, HOME. |
| Constants.ColorName | ludo/utils/constants.py:7-11 | A colour's `.name`: RED, GREEN, YELLOW or BLUE. `ColorNameRoundTrip` shows that lookup by name inverts it. |
| Constants.StateName | ludo/utils/constants.py:14-18 | A piece state's `.name`: YARD, TRACK, HOME_COLUMN or HOME. `StateNameRoundTrip` shows that lookup by name inverts it. |
| Constants.ColorNameRoundTrip | ludo/utils/constants.py:7-11 | Looking a colour up by its `.name` gives the same colour back. Two colours with the same name are the same colour. |
| Constants.StateNameRoundTrip | ludo/utils/constants.py:14-18 | Looking a piece state up by its `.name` gives the same state back. Two states with the same name are the same state. |
| Board.Progress | ludo/move.py:32-34 | A piece's progress `(position - start + 52) % 52` lies in [0, 52). Counting that many steps from the start square gives back the piece's square. |
| Board.StartSquare | ludo/board.py:11-16 | `START_SQUARES`: RED 0, GREEN 13, YELLOW 26, BLUE 39. `StartSquaresDistinctOnTrack` shows these are distinct track squares. |
| Board.HomeEntrySquare | ludo/board.py:19-24 | `HOME_ENTRY_SQUARES`: RED 51, GREEN 12, YELLOW 25, BLUE 38. `HomeEntryPrecedesStart` shows each is the square before its colour's start. |
| Board.StartSquaresDistinctOnTrack | ludo/board.py:11-16 | Every start square is a track square, and different colours have different start squares. |
| Board.HomeEntryPrecedesStart | ludo/board.py:19-24 | Each home-entry square is `(start + 51) mod 52`, the square just before the start square. Its progress is 51. |
| Board.SafeSquaresExactly | ludo/board.py:30-35 | The constant `SAFE_SQUARES`, built as the union of the start squares and the squares eight after them, is exactly {0, 8, 13, 21, 26, 34, 39, 47}. That is eight track squares, and every start square is one of them. |
| Pieces.NewPiece | ludo/piece.py:13-20 | A new piece has the given id and colour, and is in the yard at position -1. |
| Pieces.ToSerializable | ludo/piece.py:22-29 | Id and position are copied unchanged. Colour and state are written under names that look up to the same members. |
| Pieces.FromSerializable | ludo/piece.py:31-39 | Succeeds exactly when both names are known. It then copies id and position and takes the members of those names. A failure names the unknown colour if the colour is unknown, since it is looked up first, and otherwise the unknown state. |
| Pieces.RoundTrip | ludo/piece.py:22-39 | Loading a saved piece gives the same piece. |
| Pieces.IndicesWhere | ludo/bots/greedy_bot.py:39 | The comprehension of the pieces with the move's id keeps exactly the indices of the pieces that pass the test, in increasing order. |
| Pieces.FirstIndexWhere | ludo/bots/greedy_bot.py:39 | The kept list is empty exactly when no piece passes. Otherwise its head is the lowest index that passes. |
| Players.NewPlayer | ludo/player.py:15-25 | Colour and role are as given. A non-empty piece list is kept as it is. An empty one becomes four yard pieces with ids 0..3 in the player's colour. |
| Players.ToSerializable | ludo/player.py:27-33 | Writes the colour by name and the role, plus every piece in order. Each saved piece loads back to the original piece. |
| Players.PiecesFromSerializable | ludo/player.py:41 | Succeeds exactly when every piece loads. Keeps the count, and each element is the loaded piece at that position. |
| Players.PiecesLoadFailsAtFirstFailure | ludo/player.py:41 | A failed list load reports the error of the first piece that does not load; every piece before it loads. |
| Players.FromSerializable | ludo/player.py:35-42 | Succeeds exactly when the colour name is known and every piece loads. The result is the player built from them, with `__post_init__` applied. A failure names the unknown colour when the colour is unknown, and otherwise is the pieces' failure. |
| Players.RoundTrip | ludo/player.py:27-42 | Loading a saved player gives the same player (colour, role, pieces in order). This holds for every player that has pieces. |
| Players.LoadingNoPiecesGivesDefaults | ludo/player.py:23-25 | A saved player with no pieces loads with four fresh yard pieces of its colour. |
| State.PlayersToSerializable | ludo/state.py:29 | Every player is saved, in order. |
| State.PlayersFromSerializable | ludo/state.py:46 | Succeeds exactly when every player loads. Keeps the order and the count. |
| State.PlayersLoadFailsAtFirstFailure | ludo/state.py:46 | A failed load of the player list reports the error of the first player that does not load; every player before it loads. |
| State.PlayersRoundTrip | ludo/state.py:25-52 | Loading a saved player list gives the same list. |
| State.GameState.constructor | ludo/state.py:14-23 | Every field takes the given value. The defaults are index 0, no roll, not over, no sixes and no seed. |
| State.GameState.ToSerializable | ludo/state.py:25-35 | Stamps `SCHEMA_VERSION` and copies every scalar field. The saved player records are `PlayersToSerializable` of the players: every player saved, in order. When every player has pieces, as every constructed player does, they load back to the state's players. |
| State.GameState.FromSerializable | ludo/state.py:37-52 | A version other than "1.0" fails before anything else is read. Otherwise the load succeeds exactly when every player loads, and gives a new state with every field restored. |
| State.SaveLoadRoundTrip | ludo/state.py:25-52 | Saving then loading a state gives a state equal in every field, including each piece's state and position. |
| Moves.Advance | ludo/move.py:17-59 | Moving a piece keeps its id and colour. Where the piece goes is stated by `AdvanceFollowsJourney`. |
| Moves.ApplyMove | ludo/move.py:15-73 | A move keeps every player's colour, role and number of pieces. What it does to each piece is stated by `CaptureEffect`. |
| Moves.Captures | ludo/move.py:62 | The capture scan runs exactly when the mover ends on the track on a square that is not safe. |
| Moves.SendBack | ludo/move.py:67-73 | One opponent's pieces after the inner capture loop. The count is kept; `CaptureEffect` shows that exactly its track pieces on the square go to the yard at -1. |
| Moves.CapturePlayer | ludo/move.py:63-73 | One player in the capture scan: a player of the mover's colour is skipped, any other has `SendBack` applied. |
| Moves.CaptureAll | ludo/move.py:61-73 | The capture scan over every player, which keeps the number of players. `CaptureOpponents` proves the nested loops equal to it, and `CaptureEffect` states its effect on each piece. |
| Moves.AllHome | ludo/move.py:76-77 | `all(p.state == HOME ...)` over a player's pieces, true for an empty list. `MovePiece` sets the game-over flag by it, and `TurnEndsGameOnlyWhenAllHome` shows a game ends only then. |
| Moves.MovePiece | ludo/move.py:15-78 | The players become `ApplyMove` of the old players. The game-over flag is set when it was already set or every piece of the current player is HOME, and is never cleared. The index, the roll, the run of sixes and the seed are not touched. |
| Moves.AdvancedPiece | ludo/move.py:17-59 | The moved piece is `Advance(piece, roll)`. |
| Moves.CaptureOpponents | ludo/move.py:61-73 | The nested loops leave the players as `CaptureAll`: each piece of another colour on the track at the mover's square goes back to the yard. |
| Moves.AdvanceFollowsJourney | ludo/move.py:17-59 | A yard piece enters at its start square whatever the roll. A HOME piece stays. A track or home-column piece advances exactly `roll` steps along its journey, or does not move at all if that would pass HOME. The piece stays well placed. |
| Moves.TrackAdvance | ludo/move.py:24-46 | For a track piece, the square reached by `(position + roll) % 52`, or the home-column slot, is the one `roll` more steps from its start. An overshoot leaves it unchanged. |
| Moves.HomeNeedsExactRoll | ludo/move.py:48-59 | A move makes a piece HOME exactly when it was HOME already, or the roll covers exactly the rest of its journey. |
| Moves.CaptureEffect | ludo/move.py:61-73 | Apart from the mover, the only pieces a move changes are pieces of another colour on the track at the mover's landing square. This happens only when that square is an unsafe track square, and each such piece goes to the yard at -1. Same-colour pieces, pieces elsewhere, and everything after a move to a safe square or off the track are unchanged. |
| Moves.MoveKeepsWellPlaced | ludo/move.py:15-78 | A move keeps every piece at a position its state allows: -1 in the yard, 0..51 on the track, 52..56 in the home column. It keeps every piece in its owner's colour. |
| Rules.CountOnTrackAt | ludo/rules.py:114-117 | The counter of the inner loop, which never exceeds the number of pieces. `TwoOnSquare` shows when it reaches two. |
| Rules.TwoOnSquare | ludo/rules.py:114-119 | The counter reaches two exactly when two distinct pieces of the list stand on the track on the square. |
| Rules.IsBlocked | ludo/rules.py:110-122 | Some player of another colour has a count of at least two on the square. `IsSquareBlockedByOpponent` proves the loop answers it, and `BlockedMeansTwoPieces` characterises it by pieces. |
| Rules.PathClear | ludo/rules.py:61-69 | No raw square `(position + i) % 52` with `1 <= i < roll` is blocked. `PathIsClear` proves the walk answers it, and `MovableExactly` shows its role in legality. |
| Rules.IsSquareBlockedByOpponent | ludo/rules.py:91-122 | The loop answers `IsBlocked`. |
| Rules.BlockedMeansTwoPieces | ludo/rules.py:110-122 | A square is blocked exactly when some player of another colour has two distinct pieces of its own on the track there. |
| Rules.FirstInYard | ludo/rules.py:49-50 | `yard_pieces[0]`: the first yard piece in list order, or nothing exactly when no piece is in the yard. |
| Rules.YardExit | ludo/rules.py:47-52 | At most one move. There is one exactly on a six when some piece is in the yard, and it takes a yard piece to the start square. `YardExitFirst` shows it is the first yard piece and the first legal move. |
| Rules.Destination | ludo/rules.py:55-87 | Only a track or home-column piece has a destination, and it is below 58. `LegalMoveMatchesAdvance` shows it is where `move_piece` puts the piece, and `MovableExactly` shows when it exists. |
| Rules.PieceMoves | ludo/rules.py:55-87 | The loop over the first `n` pieces yields only moves of the current player's pieces among those `n`. |
| Rules.CandidateOf | ludo/rules.py:56-87 | One round of the loop yields at most one move, and it is a move of that round's piece. |
| Rules.LegalMoves | ludo/rules.py:43-89 | Every legal move names a piece of the current player. |
| Rules.GetLegalMoves | ludo/rules.py:21-89 | Returns `LegalMoves` and changes nothing. |
| Rules.YardExitMove | ludo/rules.py:47-52 | The yard-exit part of the list is `YardExit`. |
| Rules.PieceCandidate | ludo/rules.py:55-87 | One round of the loop, with its flag and `break`, yields `CandidateOf`. |
| Rules.PathIsClear | ludo/rules.py:61-69 | The intermediate-square walk answers `PathClear`. It checks the raw squares `(position + i) % 52` for `1 <= i < roll`, and not the landing square. |
| Rules.PieceMovesMembers | ludo/rules.py:55-87 | The loop yields a move exactly when it is one of the first `n` pieces going to its destination. |
| Rules.PieceMovesIncreasing | ludo/rules.py:55-87 | The loop yields moves in strictly increasing piece order. |
| Rules.LegalMovesAreOwnPieces | ludo/rules.py:43-89 | Every legal move is a move of one of the current player's own pieces, and no piece is offered twice. |
| Rules.LegalMovesMembers | ludo/rules.py:47-87 | A move is legal exactly when it is the yard exit, or a move of one of the current player's pieces to its destination. |
| Rules.YardExitFirst | ludo/rules.py:47-52 | On a six with a piece in the yard, the first legal move takes the first yard piece in list order to the start square. No other legal move is of a yard piece. |
| Rules.NoYardOrHomeMoves | ludo/rules.py:48-87 | On a roll other than six no yard piece may move, and a HOME piece never may. |
| Rules.LegalMoveMatchesAdvance | ludo/rules.py:55-87 | A legal move's destination is where `move_piece` puts the piece. Destinations below 52 are on the track, 52..56 in the home column, and 57 is HOME. |
| Rules.MovableExactly | ludo/rules.py:56-87 | A track or home-column piece has a legal move exactly when its move would not pass HOME. Under the blocking rule, a track piece also needs its intermediate squares unblocked. |
| GreedyBots.IdIndex | ludo/bots/greedy_bot.py:39 | `[p for p in pieces if p.id == id][0]` is the first piece with that id. |
| GreedyBots.CaptureSeen | ludo/bots/greedy_bot.py:54-60 | Some piece of a player other than the current one was on the track before the simulated move and is in the yard after it. `SimulatedCapture` shows when that happens. |
| GreedyBots.ScoreOf | ludo/bots/greedy_bot.py:38-72 | The (tier, secondary) score of a move, simulated on a copy. `MoveScore` proves the method computes it. `LegalMoveTiers` states which legal moves get which tier, and that the secondary value is the destination in tiers 1 to 3 and 0 otherwise. |
| GreedyBots.Scores | ludo/bots/greedy_bot.py:89-91 | Every move is scored, in list order. |
| GreedyBots.BestIndex | ludo/bots/greedy_bot.py:93-97 | The stable descending sort puts first the first of the highest scores. No score beats it, and every earlier score is strictly lower. |
| GreedyBots.BestIndexUnique | ludo/bots/greedy_bot.py:93-97 | Those two properties determine the chosen position. |
| GreedyBots.MoveScore | ludo/bots/greedy_bot.py:18-72 | Simulating on a fresh copy with the state's own roll gives `ScoreOf`, and the given state is unchanged. |
| GreedyBots.CaptureScan | ludo/bots/greedy_bot.py:52-60 | The scan finds a capture exactly when some piece of another player was on the track before and is in the yard after. |
| GreedyBots.ChooseMove | ludo/bots/greedy_bot.py:74-97 | An empty list is an error, and only an empty list is. Otherwise the result is the first move with the highest (tier, destination) score. |
| GreedyBots.LegalMoveTiers | ludo/bots/greedy_bot.py:48-72 | Each tier, stated on the legal move itself. 4 exactly for a move to 57. 3 exactly for landing on an unsafe track square holding an opponent. 2 exactly for leaving the yard. 1 for any other track move. 0 for a home-column move that does not finish. The secondary value is the destination in tiers 1-3 and 0 otherwise. |
| GreedyBots.SimulatedCapture | ludo/bots/greedy_bot.py:41-60 | On the copy the moved piece is where `Advance` puts it. The capture test fires exactly when that is an unsafe track square holding a piece of another colour. |
| Games.HandOversGoRound | ludo/game.py:175-180 | `k` hand-overs from a valid index go up to the last player and wrap round to the first. |
| Games.NextIndex | ludo/game.py:177-179 | The next seat round the table, which keeps a valid index valid. `StepMod` shows it equals `(index + 1) % len(players)`. |
| Games.StepMod | ludo/game.py:177-179 | `(index + 1) % len(players)` is the next seat round the table. |
| Games.EveryPlayerHasATurn | ludo/game.py:175-180 | One round of hand-overs gives every player the turn and nobody else. After it the turn is back where it started. |
| Games.Choose | ludo/game.py:105-107 | The strategy returns one of the legal moves. The greedy bot returns the one `choose_move` picks. |
| Games.MayPick | ludo/game.py:105-107 | A strategy's pick is one of the legal moves. For the greedy bot it is the move `choose_move` returns. `Choose` ensures it. |
| Games.MoveTaken | ludo/game.py:105-117 | The picked legal move is applied. The game is over once the current player's pieces are all HOME. Unless the game is over or the roll was a six, the turn passes and the run of sixes restarts. |
| Games.TurnProceeded | ludo/game.py:94-117 | With no legal move nothing moves, and the turn passes unless the roll was a six. Otherwise `MoveTaken` holds. |
| Games.TurnPlayed | ludo/game.py:81-117 | A whole turn. The run of sixes grows on a six and restarts otherwise. A forfeited third six passes the turn and moves nothing. Otherwise `TurnProceeded` holds for the legal moves. The `Turn...` lemmas state its consequences. |
| Games.TurnKeepsPlayable | ludo/game.py:65-117 | After a turn the current index is still a player's index, and no player is added or removed. |
| Games.TurnEndsGameOnlyWhenAllHome | ludo/game.py:111-113 | A finished game stays finished. A game ends only on a turn after which every piece of the player who had the turn is HOME. |
| Games.TurnSixesStayBelowThree | ludo/game.py:83-92 | Under the forfeit rule the run of sixes stays between zero and two. |
| Games.TurnCountsSixes | ludo/game.py:83-92 | Any roll but six resets the run. A six adds one, reaching three when the forfeit rule is off. A forfeited third six resets the run and moves no piece. |
| Games.TurnPassesUnlessSix | ludo/game.py:89-117 | After a roll other than six the turn passes, unless the game is over. After a six the same player goes again, unless it was a forfeited third six. |
| Games.TurnMovesOneLegalMove | ludo/game.py:94-109 | A turn either moves nothing, or applies exactly one legal move of the current player. |
| Games.TurnKeepsWellPlaced | ludo/game.py:65-117 | A turn keeps every piece well placed and in its owner's colour. |
| Games.Game.constructor | ludo/game.py:32-63 | A given state is used as it is. Otherwise a fresh state of the players is made, with the defaults and the dice's seed. |
| Games.Game.NextPlayer | ludo/game.py:175-180 | The turn passes to the next seat round the table, and the run of sixes restarts. |
| Games.Game.PlayTurn | ludo/game.py:65-117 | Records the roll and plays the turn as `TurnPlayed` describes: the sixes count, the forfeit, the no-move case, the strategy's move, and the hand-over. Only the five fields a turn touches change. |
| Games.Game.Proceed | ludo/game.py:94-103 | With no legal move nothing moves, and the turn passes unless the roll was a six. Otherwise a move is taken. |
| Games.Game.MoveChosen | ludo/game.py:105-117 | The move the strategy picks is applied. The turn passes unless the roll was a six or the game is over. |

## Left out

- The dice (`ludo/dice.py`), the random bot and the human bot are not part of this model. The roll is a parameter of `PlayTurn`, the dice is represented only by its seed, and random or human choice is the nondeterministic `Chooser`.
- File persistence (`ludo/persistence.py`), the command-line loop (`loop_cli`, `_get_player_command`, `_handle_roll`, `_handle_save`) and the GUI are not part of this model. They are I/O. The `print` inside `play_turn` has no effect on the state and is omitted.
- The placeholder dataclasses `PlayerState` and `PieceState` in `ludo/state.py:55-66` have no behaviour and are omitted.
- Games.Game.PlayTurn: requires a current index within the player list and a strategy for every player, so the model does not cover other states. Python does not refuse them. It indexes with a negative index from the end of the list. On the forfeit path, `next_player` brings any index back into range without an error.
- Games.Game.NextPlayer: `NextIndex` equals Python's `(index + 1) % n` only for an index in range. That is what `Valid` guarantees.
- GreedyBots.ScoreOf: requires a move of one of the current player's pieces. `MoveScore` and `ChooseMove` also require a recorded roll. The model does not cover other inputs, which Python does not refuse. For a move of another player's piece, Python scores the current player's first piece with the same id; with the default ids 0..3 that covers every opponent piece. It fails with IndexError only when no such piece exists. With no roll recorded, a yard or HOME piece is scored without error, and only a track or home-column piece raises TypeError.
- Moves.CaptureAll: the capture scan compares each opponent piece with the mover's landing square. Python re-reads the mover's position after each reset. The two differ only when the mover itself is reset, which needs a player owning a piece of another colour.
- Players.RoundTrip: stated for players with at least one piece. `__post_init__` gives every constructed player pieces. A saved player without pieces loads with four default pieces (`LoadingNoPiecesGivesDefaults`).
- The loop of `get_legal_moves` appends to one list. The model keeps the yard exit and the loop's moves as two lists and concatenates them; the result is the same list.
- Several source functions are split into helper methods so that each proof stays small. `get_legal_moves` is split into `YardExitMove`, `PieceCandidate` and `PathIsClear`. `move_piece` is split into `AdvancedPiece` and `CaptureOpponents`. `_get_move_score` is split into `MoveScore` and `CaptureScan`. `play_turn` is split into `PlayTurn`, `Proceed`, `MoveChosen` and `Choose`. Each helper's contract is the part of the function it performs.
- Python compares pieces by object identity. The model identifies a piece by its owner's index and its index in the owner's list. Aliasing between the state and a piece object held elsewhere is not modelled.
- The `Strategy` protocol of `ludo/bots/base.py` becomes the `Strategy` datatype. Its only contract is that the choice is one of the given non-empty list.
