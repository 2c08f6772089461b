/** The two enumerations of ludo/utils/constants.py and the lookup by member name that the serialisers use. */
module Constants {
  import opened Wrappers

  /** The four player colours. */
  datatype PlayerColor = Red | Green | Yellow | Blue

  /** Where a piece is in its journey: yard, main track, home column, or finished. */
  datatype PieceState = Yard | Track | HomeColumn | Home

  /** The enum member's `.name`. */
  function ColorName(c: PlayerColor): string
  {
    match c
    case Red => "RED"
    case Green => "GREEN"
    case Yellow => "YELLOW"
    case Blue => "BLUE"
  }

  /** `PlayerColor[name]`: the member with that name, or nothing (Python raises KeyError). */
  function ColorByName(name: string): (r: Option<PlayerColor>)
    ensures r.Some? ==> ColorName(r.value) == name
    ensures r.None? ==> forall c: PlayerColor :: ColorName(c) != name
  {
    if name == "RED" then Some(Red)
    else if name == "GREEN" then Some(Green)
    else if name == "YELLOW" then Some(Yellow)
    else if name == "BLUE" then Some(Blue)
    else None
  }

  /** The enum member's `.name`. */
  function StateName(s: PieceState): string
  {
    match s
    case Yard => "YARD"
    case Track => "TRACK"
    case HomeColumn => "HOME_COLUMN"
    case Home => "HOME"
  }

  /** `PieceState[name]`: the member with that name, or nothing (Python raises KeyError). */
  function StateByName(name: string): (r: Option<PieceState>)
    ensures r.Some? ==> StateName(r.value) == name
    ensures r.None? ==> forall s: PieceState :: StateName(s) != name
  {
    if name == "YARD" then Some(Yard)
    else if name == "TRACK" then Some(Track)
    else if name == "HOME_COLUMN" then Some(HomeColumn)
    else if name == "HOME" then Some(Home)
    else None
  }

  /** Each enum has exactly four members, with four distinct names. */
  lemma FourMembersEach()
    ensures |{Red, Green, Yellow, Blue}| == 4
    ensures forall c: PlayerColor :: ColorName(c) in {"RED", "GREEN", "YELLOW", "BLUE"}
    ensures |{Yard, Track, HomeColumn, Home}| == 4
    ensures forall s: PieceState :: StateName(s) in {"YARD", "TRACK", "HOME_COLUMN", "HOME"}
  {
  }

  /** Looking a colour up by its name gives the colour back, and colour names are distinct. */
  lemma {:induction false} ColorNameRoundTrip(c: PlayerColor)
    ensures ColorByName(ColorName(c)) == Some(c)
    ensures forall d: PlayerColor :: ColorName(d) == ColorName(c) ==> d == c
  {
  }

  /** Looking a piece state up by its name gives the state back, and state names are distinct. */
  lemma {:induction false} StateNameRoundTrip(s: PieceState)
    ensures StateByName(StateName(s)) == Some(s)
    ensures forall t: PieceState :: StateName(t) == StateName(s) ==> t == s
  {
  }
}
