/**
  The numeric encoding of the game's tagged values used by the setup routes
  and saved games: game types as 0..3, bidding actions as -1 (pass) or the
  code of the declared game, and solo grades as 1..3 for wins and -1..-3 for
  losses. Also the conversion of a finished setup tuple into a game state.
 */
module Types {
  import opened JsValues
  import opened AppContext

  /** `GameTypeEnum`. */
  function GameTypeCode(v: Variant): (c: int)
    ensures 0 <= c <= 3
  {
    match v
    case Galdins => 0
    case MazaZole => 1
    case Zole => 2
    case Lielais => 3
  }

  /** Reads a `GameTypeEnum` code back. */
  function VariantOfCode(c: int): (r: Option<Variant>)
    ensures r.Some? <==> 0 <= c <= 3
  {
    if c == 0 then Some(Galdins)
    else if c == 1 then Some(MazaZole)
    else if c == 2 then Some(Zole)
    else if c == 3 then Some(Lielais)
    else None
  }

  /** The four game types have four distinct codes, and decoding inverts encoding. */
  lemma GameTypeCodesRoundTrip(v: Variant, c: int)
    ensures VariantOfCode(GameTypeCode(v)) == Some(v)
    ensures VariantOfCode(c) == Some(v) ==> GameTypeCode(v) == c
  {
  }

  /** `GameStateAction` of the numeric encoding: `-1` for a pass, the game's code for a declaration. */
  function ActionCode(a: GameStateAction): (c: int)
    ensures a.Garam? <==> c == -1
  {
    match a
    case Garam => -1
    case BidLielais => GameTypeCode(Lielais)
    case BidZole => GameTypeCode(Zole)
    case BidMazaZole => GameTypeCode(MazaZole)
  }

  /** Reads a bidding action code back; the code of Galdiņš is not a bidding action. */
  function ActionOfCode(c: int): (r: Option<GameStateAction>)
    ensures c == GameTypeCode(Galdins) ==> r.None?
  {
    if c == -1 then Some(Garam)
    else if c == GameTypeCode(Lielais) then Some(BidLielais)
    else if c == GameTypeCode(Zole) then Some(BidZole)
    else if c == GameTypeCode(MazaZole) then Some(BidMazaZole)
    else None
  }

  /**
    Bidding action codes decode to the action they encode, exactly the four
    codes decode, and a declaration is encoded as the code of the game it
    declares.
   */
  lemma ActionCodesRoundTrip(a: GameStateAction, c: int, seat: Num)
    ensures ActionOfCode(ActionCode(a)) == Some(a)
    ensures ActionOfCode(c) == Some(a) ==> ActionCode(a) == c
    ensures ActionOfCode(c).Some? <==> c in {-1, 1, 2, 3}
    ensures a.IsDeclaration() ==> ActionCode(a) == GameTypeCode(Declared(a, seat).Variant())
  {
  }

  /** `ZoleWinResult` / `ZoleLoseResult`. */
  function GradeCode(g: Grade): (c: int)
    ensures c != 0 && -3 <= c <= 3
  {
    match g
    case Win61to90 => 1
    case Win91Plus => 2
    case WinAllTricks => 3
    case Lose31to60 => -1
    case Lose30OrLess => -2
    case LoseNoTricks => -3
  }

  /** Reads a grade code back. */
  function GradeOfCode(c: int): (r: Option<Grade>)
    ensures r.Some? <==> c != 0 && -3 <= c <= 3
  {
    if c == 1 then Some(Win61to90)
    else if c == 2 then Some(Win91Plus)
    else if c == 3 then Some(WinAllTricks)
    else if c == -1 then Some(Lose31to60)
    else if c == -2 then Some(Lose30OrLess)
    else if c == -3 then Some(LoseNoTricks)
    else None
  }

  /** The sign of a grade's code tells a win from a loss, and decoding inverts encoding. */
  lemma GradeCodes(g: Grade, c: int)
    ensures GradeCode(g) > 0 <==> g.IsWin()
    ensures GradeOfCode(GradeCode(g)) == Some(g)
    ensures GradeOfCode(c) == Some(g) ==> GradeCode(g) == c
  {
  }

  /** `GameType` of the numeric encoding. */
  datatype EnumGameType =
    | EnumGaldinsType
    | EnumMazaZoleType(player: int)
    | EnumZoleType(player: int)
    | EnumLielaisType(player: int)

  /**
    `Game` of the numeric encoding. A Mazā zole `result` is a flag; a solo
    `result` is a grade code, held here as `resultCode` because a field name
    shared by several constructors must have one type.
   */
  datatype EnumGame =
    | EnumGaldinsGame(loser: int)
    | EnumMazaZoleGame(player: int, result: bool)
    | EnumZoleGame(player: int, resultCode: int)
    | EnumLielaisGame(player: int, resultCode: int)

  /**
    `GameState`: a saved game. `None` marks an absent optional field; the
    game type may also be present and `null`, the inner `None`.
   */
  datatype GameState = GameState(
    players: seq<string>,
    dealer: int,
    games: Option<seq<EnumGame>>,
    preGameActions: Option<seq<int>>,
    gameType: Option<Option<EnumGameType>>)

  /** `Setup3`: player count, player names and dealer, as collected by the setup pages. */
  datatype Setup3 = Setup3(playerCount: int, playerNames: seq<string>, dealer: int)

  /** `convertGameStateFromSetup`: a fresh game state from a finished setup; the player count is not kept. */
  function ConvertGameStateFromSetup(setup: Setup3): (r: GameState)
    ensures r.players == setup.playerNames && r.dealer == setup.dealer
    ensures r.games.None? && r.preGameActions.None? && r.gameType.None?
  {
    GameState(setup.playerNames, setup.dealer, None, None, None)
  }

  /** Two setups that differ only in the player count convert to the same game state. */
  lemma ConvertIgnoresPlayerCount(setup: Setup3, count: int)
    ensures ConvertGameStateFromSetup(setup.(playerCount := count)) == ConvertGameStateFromSetup(setup)
  {
  }
}
