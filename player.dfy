/** The Player record of ludo/player.py: default pieces at construction and conversion to and from PlayerData. */
module Players {
  import opened Wrappers
  import opened Constants
  import opened Serialization
  import Pieces

  /** A player: its colour, the role tag naming the strategy that drives it, and its pieces in order. */
  datatype Player = Player(color: PlayerColor, role: string, pieces: seq<Pieces.Piece>)

  /** The number of pieces a player gets when built without any. */
  const PIECES_PER_PLAYER: nat := 4

  /** `Player(color, role, pieces)` followed by `__post_init__`: an empty piece list is
      replaced by four fresh pieces of the player's colour, any other list is kept. */
  function NewPlayer(color: PlayerColor, role: string, pieces: seq<Pieces.Piece> := []): (p: Player)
    ensures p.color == color && p.role == role
    ensures pieces != [] ==> p.pieces == pieces
    ensures pieces == [] ==> |p.pieces| == PIECES_PER_PLAYER
    ensures pieces == [] ==> forall i :: 0 <= i < |p.pieces| ==> p.pieces[i] == Pieces.NewPiece(i, color)
  {
    if pieces == [] then Player(color, role, seq(PIECES_PER_PLAYER, i => Pieces.NewPiece(i, color)))
    else Player(color, role, pieces)
  }

  /** `Player.to_serializable`: colour by name, the role, and every piece serialised in order. */
  function ToSerializable(p: Player): (d: PlayerData)
    ensures ColorByName(d.color) == Some(p.color) && d.role == p.role
    ensures |d.pieces| == |p.pieces|
    ensures forall j :: 0 <= j < |d.pieces| ==> Pieces.FromSerializable(d.pieces[j]) == Success(p.pieces[j])
  {
    ColorNameRoundTrip(p.color);
    var pieces := seq(|p.pieces|, j requires 0 <= j < |p.pieces| => Pieces.ToSerializable(p.pieces[j]));
    assert forall j :: 0 <= j < |pieces| ==> Pieces.FromSerializable(pieces[j]) == Success(p.pieces[j]) by {
      forall j | 0 <= j < |pieces| ensures Pieces.FromSerializable(pieces[j]) == Success(p.pieces[j]) {
        Pieces.RoundTrip(p.pieces[j]);
      }
    }
    PlayerData(ColorName(p.color), p.role, pieces)
  }

  /** The comprehension `[Piece.from_serializable(p) for p in data]`: the first unknown name fails the whole list. */
  function PiecesFromSerializable(ds: seq<PieceData>): (r: Result<seq<Pieces.Piece>, LoadError>)
    ensures r.Success? <==> forall j :: 0 <= j < |ds| ==> Pieces.FromSerializable(ds[j]).Success?
    ensures r.Success? ==> |r.value| == |ds|
    ensures r.Success? ==> forall j :: 0 <= j < |ds| ==> Success(r.value[j]) == Pieces.FromSerializable(ds[j])
  {
    if ds == [] then Success([])
    else
      match Pieces.FromSerializable(ds[0])
      case Failure(e) => Failure(e)
      case Success(first) =>
        match PiecesFromSerializable(ds[1..])
        case Failure(e) => Failure(e)
        case Success(rest) => Success([first] + rest)
  }

  /** A failed load reports the error of the first piece that does not load: every piece before it loads. */
  lemma {:induction false} PiecesLoadFailsAtFirstFailure(ds: seq<PieceData>)
    requires PiecesFromSerializable(ds).Failure?
    ensures
      exists k :: 0 <= k < |ds| && Pieces.FromSerializable(ds[k]) == Failure(PiecesFromSerializable(ds).error) &&
        (forall j :: 0 <= j < k ==> Pieces.FromSerializable(ds[j]).Success?)
  {
    if Pieces.FromSerializable(ds[0]).Failure? {
      assert Pieces.FromSerializable(ds[0]) == Failure(PiecesFromSerializable(ds).error);
    } else {
      assert forall j :: 1 <= j < |ds| ==> ds[1..][j - 1] == ds[j];
      PiecesLoadFailsAtFirstFailure(ds[1..]);
      var k :| 0 <= k < |ds| - 1 && Pieces.FromSerializable(ds[1..][k]) == Failure(PiecesFromSerializable(ds[1..]).error) &&
        (forall j :: 0 <= j < k ==> Pieces.FromSerializable(ds[1..][j]).Success?);
      assert Pieces.FromSerializable(ds[k + 1]) == Failure(PiecesFromSerializable(ds).error);
    }
  }

  /** `Player.from_serializable`: colour by name, then the pieces, then `__post_init__` again. */
  function FromSerializable(d: PlayerData): (r: Result<Player, LoadError>)
    ensures r.Success? <==> ColorByName(d.color).Some? && PiecesFromSerializable(d.pieces).Success?
    ensures r.Success? ==> r.value == NewPlayer(ColorByName(d.color).value, d.role, PiecesFromSerializable(d.pieces).value)
    ensures r.Failure? ==> r.error == if ColorByName(d.color).None? then UnknownName(d.color)
                                     else PiecesFromSerializable(d.pieces).error
  {
    match ColorByName(d.color)
    case None => Failure(UnknownName(d.color))
    case Some(color) =>
      match PiecesFromSerializable(d.pieces)
      case Failure(e) => Failure(e)
      case Success(pieces) => Success(NewPlayer(color, d.role, pieces))
  }

  /** Saving a player and loading it back gives the same player, for every player that has pieces
      (which every constructed player has: `__post_init__` never leaves the list empty). */
  lemma {:induction false} RoundTrip(p: Player)
    requires p.pieces != []
    ensures FromSerializable(ToSerializable(p)) == Success(p)
  {
    var d := ToSerializable(p);
    var r := PiecesFromSerializable(d.pieces);
    assert r.Success?;
    assert r.value == p.pieces by {
      forall j | 0 <= j < |p.pieces| ensures r.value[j] == p.pieces[j] {
        assert Success(r.value[j]) == Pieces.FromSerializable(d.pieces[j]);
      }
    }
  }

  /** A saved player with an empty piece list loads with four fresh pieces. */
  lemma LoadingNoPiecesGivesDefaults(d: PlayerData)
    requires d.pieces == [] && ColorByName(d.color).Some?
    ensures FromSerializable(d).Success?
    ensures |FromSerializable(d).value.pieces| == PIECES_PER_PLAYER
    ensures forall i :: 0 <= i < PIECES_PER_PLAYER ==>
      FromSerializable(d).value.pieces[i] == Pieces.NewPiece(i, ColorByName(d.color).value)
  {
  }
}
