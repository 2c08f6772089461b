/** The Piece record of ludo/piece.py and its conversion to and from PieceData. */
module Pieces {
  import opened Wrappers
  import opened Constants
  import opened Serialization

  /** A single game piece. `position` is -1 in the yard, 0..51 on the track, 52..57 in the home column. */
  datatype Piece = Piece(id: int, color: PlayerColor, state: PieceState, position: int)

  /** `Piece(id=..., color=...)` with the dataclass defaults. */
  function NewPiece(id: int, color: PlayerColor): (p: Piece)
    ensures p.id == id && p.color == color
    ensures p.state == Yard && p.position == -1
  {
    Piece(id, color, Yard, -1)
  }

  /** `Piece.to_serializable`: the piece with its enum members written by name. */
  function ToSerializable(p: Piece): (d: PieceData)
    ensures d.id == p.id && d.position == p.position
    ensures ColorByName(d.color) == Some(p.color) && StateByName(d.state) == Some(p.state)
  {
    ColorNameRoundTrip(p.color);
    StateNameRoundTrip(p.state);
    PieceData(p.id, ColorName(p.color), StateName(p.state), p.position)
  }

  /** `Piece.from_serializable`: the colour is looked up before the state; an unknown name fails. */
  function FromSerializable(d: PieceData): (r: Result<Piece, LoadError>)
    ensures r.Success? <==> ColorByName(d.color).Some? && StateByName(d.state).Some?
    ensures r.Success? ==> r.value.id == d.id && r.value.position == d.position
    ensures r.Success? ==> ColorName(r.value.color) == d.color && StateName(r.value.state) == d.state
    ensures r.Failure? ==> r.error == UnknownName(if ColorByName(d.color).None? then d.color else d.state)
  {
    match ColorByName(d.color)
    case None => Failure(UnknownName(d.color))
    case Some(color) =>
      match StateByName(d.state)
      case None => Failure(UnknownName(d.state))
      case Some(state) => Success(Piece(d.id, color, state, d.position))
  }

  /** Saving a piece and loading it back gives the same piece. */
  lemma {:induction false} RoundTrip(p: Piece)
    ensures FromSerializable(ToSerializable(p)) == Success(p)
  {
    ColorNameRoundTrip(p.color);
    StateNameRoundTrip(p.state);
  }

  /** The indices, in order, of the pieces that satisfy `keep`: the list comprehension
      `[p for p in pieces if p.id == ...]` of the greedy bot, by position. */
  function IndicesWhere(pieces: seq<Piece>, keep: Piece -> bool): (r: seq<nat>)
    ensures forall t :: 0 <= t < |r| ==> r[t] < |pieces| && keep(pieces[r[t]])
    ensures forall t, u :: 0 <= t < u < |r| ==> r[t] < r[u]
    ensures forall j :: 0 <= j < |pieces| && keep(pieces[j]) ==> j in r
  {
    if pieces == [] then []
    else
      var front := IndicesWhere(pieces[..|pieces| - 1], keep);
      if keep(pieces[|pieces| - 1]) then front + [|pieces| - 1] else front
  }

  /** The first kept index is the lowest index whose piece is kept, and there is one exactly when some piece is kept. */
  lemma FirstIndexWhere(pieces: seq<Piece>, keep: Piece -> bool)
    ensures IndicesWhere(pieces, keep) == [] <==> forall j :: 0 <= j < |pieces| ==> !keep(pieces[j])
    ensures IndicesWhere(pieces, keep) != [] ==>
      var k := IndicesWhere(pieces, keep)[0];
      k < |pieces| && keep(pieces[k]) && forall j :: 0 <= j < k ==> !keep(pieces[j])
  {
  }
}
