/** The GameState of ludo/state.py: the aggregate that a turn mutates in place, and its save/load conversion. */
module State {
  import opened Wrappers
  import opened Serialization
  import Players

  /** Every player serialised in order. */
  function PlayersToSerializable(players: seq<Players.Player>): (ds: seq<PlayerData>)
    ensures |ds| == |players|
    ensures forall i :: 0 <= i < |ds| ==> ds[i] == Players.ToSerializable(players[i])
  {
    seq(|players|, i requires 0 <= i < |players| => Players.ToSerializable(players[i]))
  }

  /** `[Player.from_serializable(p) for p in data.players]`: the first failing player fails the load. */
  function PlayersFromSerializable(ds: seq<PlayerData>): (r: Result<seq<Players.Player>, LoadError>)
    ensures r.Success? <==> forall i :: 0 <= i < |ds| ==> Players.FromSerializable(ds[i]).Success?
    ensures r.Success? ==> |r.value| == |ds|
    ensures r.Success? ==> forall i :: 0 <= i < |ds| ==> Success(r.value[i]) == Players.FromSerializable(ds[i])
  {
    if ds == [] then Success([])
    else
      assert forall i :: 1 <= i < |ds| ==> ds[1..][i - 1] == ds[i];
      match Players.FromSerializable(ds[0])
      case Failure(e) => Failure(e)
      case Success(first) =>
        match PlayersFromSerializable(ds[1..])
        case Failure(e) => Failure(e)
        case Success(rest) =>
          assert forall i :: 1 <= i < |ds| ==> ([first] + rest)[i] == rest[i - 1];
          Success([first] + rest)
  }

  /** A failed load reports the error of the first player that does not load: every player before it loads. */
  lemma {:induction false} PlayersLoadFailsAtFirstFailure(ds: seq<PlayerData>)
    requires PlayersFromSerializable(ds).Failure?
    ensures
      exists k :: 0 <= k < |ds| && Players.FromSerializable(ds[k]) == Failure(PlayersFromSerializable(ds).error) &&
        (forall i :: 0 <= i < k ==> Players.FromSerializable(ds[i]).Success?)
  {
    if Players.FromSerializable(ds[0]).Failure? {
      assert Players.FromSerializable(ds[0]) == Failure(PlayersFromSerializable(ds).error);
    } else {
      assert forall i :: 1 <= i < |ds| ==> ds[1..][i - 1] == ds[i];
      PlayersLoadFailsAtFirstFailure(ds[1..]);
      var k :| 0 <= k < |ds| - 1 && Players.FromSerializable(ds[1..][k]) == Failure(PlayersFromSerializable(ds[1..]).error) &&
        (forall i :: 0 <= i < k ==> Players.FromSerializable(ds[1..][i]).Success?);
      assert Players.FromSerializable(ds[k + 1]) == Failure(PlayersFromSerializable(ds).error);
    }
  }

  /** Serialising a list of players that all have pieces and loading it back gives the same list. */
  lemma {:induction false} PlayersRoundTrip(players: seq<Players.Player>)
    requires forall i :: 0 <= i < |players| ==> players[i].pieces != []
    ensures PlayersFromSerializable(PlayersToSerializable(players)) == Success(players)
  {
    var ds := PlayersToSerializable(players);
    forall i | 0 <= i < |players| ensures Players.FromSerializable(ds[i]) == Success(players[i]) {
      Players.RoundTrip(players[i]);
    }
    var r := PlayersFromSerializable(ds);
    assert r.Success?;
    assert r.value == players by {
      forall i | 0 <= i < |players| ensures r.value[i] == players[i] {
        assert Success(r.value[i]) == Players.FromSerializable(ds[i]);
      }
    }
  }

  /** The complete state of a game: players in turn order, whose turn it is, the last roll,
      the game-over flag, the run of sixes, and the seed of the dice. */
  class GameState {
    var players: seq<Players.Player>
    var currentPlayerIndex: int
    var diceRoll: Option<int>
    var isGameOver: bool
    var consecutiveSixes: int
    var diceSeed: Option<int>

    /** The dataclass constructor with its defaults. */
    constructor (players: seq<Players.Player>, currentPlayerIndex: int := 0, diceRoll: Option<int> := None,
                 isGameOver: bool := false, consecutiveSixes: int := 0, diceSeed: Option<int> := None)
      ensures this.players == players && this.currentPlayerIndex == currentPlayerIndex
      ensures this.diceRoll == diceRoll && this.isGameOver == isGameOver
      ensures this.consecutiveSixes == consecutiveSixes && this.diceSeed == diceSeed
    {
      this.players := players;
      this.currentPlayerIndex := currentPlayerIndex;
      this.diceRoll := diceRoll;
      this.isGameOver := isGameOver;
      this.consecutiveSixes := consecutiveSixes;
      this.diceSeed := diceSeed;
    }

    /** `GameState.to_serializable`: stamped with the current schema version, every field copied,
        and the players saved so that loading them gives them back. */
    function ToSerializable(): (d: GameData)
      reads this
      ensures d.schemaVersion == SCHEMA_VERSION
      ensures d.currentPlayerIndex == currentPlayerIndex && d.diceRoll == diceRoll
      ensures d.isGameOver == isGameOver && d.consecutiveSixes == consecutiveSixes && d.diceSeed == diceSeed
      ensures d.players == PlayersToSerializable(players)
      ensures (forall i :: 0 <= i < |players| ==> players[i].pieces != []) ==>
        PlayersFromSerializable(d.players) == Success(players)
    {
      var d := GameData(SCHEMA_VERSION, PlayersToSerializable(players), currentPlayerIndex, diceRoll,
                        isGameOver, consecutiveSixes, diceSeed);
      if forall i :: 0 <= i < |players| ==> players[i].pieces != [] then PlayersRoundTrip(players); d else d
    }

    /** `GameState.from_serializable`: a different schema version is refused before anything
        else is read; otherwise every field is restored and the players are loaded in order. */
    static method FromSerializable(data: GameData) returns (r: Result<GameState, LoadError>)
      ensures data.schemaVersion != SCHEMA_VERSION ==> r == Failure(SchemaVersionMismatch(data.schemaVersion))
      ensures data.schemaVersion == SCHEMA_VERSION ==>
        (r.Success? <==> PlayersFromSerializable(data.players).Success?)
      ensures r.Failure? && data.schemaVersion == SCHEMA_VERSION ==> r.error == PlayersFromSerializable(data.players).error
      ensures r.Success? ==> fresh(r.value)
      ensures r.Success? ==> r.value.players == PlayersFromSerializable(data.players).value
      ensures r.Success? ==> r.value.currentPlayerIndex == data.currentPlayerIndex && r.value.diceRoll == data.diceRoll
      ensures r.Success? ==> r.value.isGameOver == data.isGameOver && r.value.consecutiveSixes == data.consecutiveSixes
      ensures r.Success? ==> r.value.diceSeed == data.diceSeed
    {
      if data.schemaVersion != SCHEMA_VERSION {
        return Failure(SchemaVersionMismatch(data.schemaVersion));
      }
      match PlayersFromSerializable(data.players) {
        case Failure(e) =>
          r := Failure(e);
        case Success(players) =>
          var state := new GameState(players, data.currentPlayerIndex, data.diceRoll, data.isGameOver,
                                     data.consecutiveSixes, data.diceSeed);
          r := Success(state);
      }
    }
  }

  /** Saving a state and loading it back gives a state equal to it in every field, nested
      pieces included, whenever every player has pieces (as every constructed player does). */
  method SaveLoadRoundTrip(s: GameState) returns (loaded: Result<GameState, LoadError>)
    requires forall i :: 0 <= i < |s.players| ==> s.players[i].pieces != []
    ensures loaded.Success?
    ensures loaded.value.players == s.players && loaded.value.currentPlayerIndex == s.currentPlayerIndex
    ensures loaded.value.diceRoll == s.diceRoll && loaded.value.isGameOver == s.isGameOver
    ensures loaded.value.consecutiveSixes == s.consecutiveSixes && loaded.value.diceSeed == s.diceSeed
  {
    loaded := GameState.FromSerializable(s.ToSerializable());
  }
}
