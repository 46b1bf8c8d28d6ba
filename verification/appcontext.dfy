/**
  The session state threaded through the reducer and the tagged unions it is
  built from: the four round variants ("Galdiņš", "Mazā zole", "Zole",
  "Lielais"), the bidding actions, the six result grades of a solo game, and a
  scored game with its per-seat `diff` and running `scores`.
 */
module AppContext {
  import opened JsValues

  /** The `type` tag shared by a game type and a recorded game. */
  datatype Variant = Galdins | MazaZole | Zole | Lielais

  /** A bidding action: a pass ("Garām") or the declaration of one of three games. */
  datatype GameStateAction = Garam | BidLielais | BidZole | BidMazaZole
  {
    predicate IsDeclaration() { !Garam? }
  }

  /** The declared game of the current round. Galdiņš has no declarer. */
  datatype GameType =
    | GaldinsType
    | MazaZoleType(player: Num)
    | ZoleType(player: Num)
    | LielaisType(player: Num)
  {
    function Variant(): Variant {
      match this
      case GaldinsType => Galdins
      case MazaZoleType(_) => MazaZole
      case ZoleType(_) => Zole
      case LielaisType(_) => Lielais
    }
  }

  /** The outcome of a Zole or Lielais round, from the declarer's point of view. */
  datatype Grade =
    | Win61to90        // "Uzvar ar 61 - 90 acīm"
    | Win91Plus        // "Uzvar ar 91 vai vairāk acīm"
    | WinAllTricks     // "Uzvar iegūstot visus stiķus"
    | Lose31to60       // "Zaudē ar 31 - 60 acīm"
    | Lose30OrLess     // "Zaudē ar 30 un mazāk acīm"
    | LoseNoTricks     // "Zaudē neiegūstot nevienu stiķi"
  {
    predicate IsWin() { Win61to90? || Win91Plus? || WinAllTricks? }
  }

  /** A resolved round: the game type together with its result payload. */
  datatype Game =
    | GaldinsGame(loser: int)
    | MazaZoleGame(player: Num, didWin: bool)
    | ZoleGame(player: Num, result: Grade)
    | LielaisGame(player: Num, result: Grade)
  {
    function Variant(): Variant {
      match this
      case GaldinsGame(_) => Galdins
      case MazaZoleGame(_, _) => MazaZole
      case ZoleGame(_, _) => Zole
      case LielaisGame(_, _) => Lielais
    }

    /**
      The seat the round is about: the loser of a Galdiņš or the declarer of
      any other game. It is the only seat scored differently from the rest.
     */
    function Subject(): Num {
      match this
      case GaldinsGame(loser) => Finite(loser)
      case MazaZoleGame(p, _) => p
      case ZoleGame(p, _) => p
      case LielaisGame(p, _) => p
    }

    /**
      Whether `seat` is the round's subject (`game.loser == seat` or
      `game.player === seat`; a `NaN` declarer matches no seat).
     */
    predicate Charged(seat: int) {
      Subject() == Finite(seat)
    }

    /** Whether the round went the subject's way: a won Mazā zole, Zole or Lielais; never a Galdiņš. */
    predicate SubjectWon() {
      match this
      case GaldinsGame(_) => false
      case MazaZoleGame(_, didWin) => didWin
      case ZoleGame(_, result) => result.IsWin()
      case LielaisGame(_, result) => result.IsWin()
    }

    /** Whether the subject is one of the `n` seats at the table. */
    predicate SubjectSeated(n: nat) {
      Subject().Finite? && 0 <= Subject().v < n
    }
  }

  /** A recorded game with its per-seat point change `diff` and the running totals `scores`. */
  datatype GameWithScore = GameWithScore(game: Game, scores: seq<Num>, diff: seq<int>)

  /** `AppContextValue`: the whole session state. */
  datatype AppContextValue = AppContextValue(
    players: seq<string>,
    initialDealer: int,
    games: seq<GameWithScore>,
    preGameActions: seq<GameStateAction>,
    gameType: Option<GameType>)

  /** `AppContext_Default`: the state before setup. */
  function Default(): (s: AppContextValue)
    ensures s.players == [] && s.games == [] && s.preGameActions == []
    ensures s.initialDealer == -1 && s.gameType == None
  {
    AppContextValue([], -1, [], [], None)
  }

  /** The game type a declaration fixes for the declaring seat. */
  function Declared(a: GameStateAction, seat: Num): (t: GameType)
    requires a.IsDeclaration()
    ensures !t.GaldinsType? && t.player == seat
    ensures a.BidLielais? <==> t.LielaisType?
    ensures a.BidZole? <==> t.ZoleType?
    ensures a.BidMazaZole? <==> t.MazaZoleType?
  {
    match a
    case BidLielais => LielaisType(seat)
    case BidZole => ZoleType(seat)
    case BidMazaZole => MazaZoleType(seat)
  }

  /** Galdiņš cannot be declared: every declaration names a declarer. */
  lemma GaldinsNeverDeclared(a: GameStateAction, seat: Num)
    requires a.IsDeclaration()
    ensures Declared(a, seat).Variant() != Galdins
  {
  }
}
