/**
  The pure decisions of the current-round view: which seat is offered the
  bidding buttons, which hand label each seat shows, and which result action
  each button dispatches once a game type is set.
 */
module GameView {
  import opened JsValues
  import opened AppContext
  import opened Dealer
  import opened GameResult
  import opened Reducer
  import opened PlayedGames
  import SetGamestate

  /** `shouldGiveAction`: seat `index` gets the bidding buttons. */
  function ShouldGiveAction(dealer: Num, currentActionCount: nat, playerCount: nat,
                            gameType: Option<GameType>, index: int): (r: bool)
    ensures r ==> gameType.None? && -(playerCount as int) < index < playerCount
    ensures r && dealer.Finite? && dealer.v + currentActionCount + 1 >= 0 ==> 0 <= index
  {
    gameType == None && SeatAfter(dealer, currentActionCount + 1, playerCount) == Finite(index)
  }

  /** While bidding, with a valid dealer, exactly one seat is offered the bidding buttons. */
  lemma ExactlyOneSeatActs(dealer: int, currentActionCount: nat, playerCount: nat)
    requires 0 <= dealer < playerCount
    ensures var seat := (dealer + currentActionCount + 1) % playerCount;
            && 0 <= seat < playerCount
            && ShouldGiveAction(Finite(dealer), currentActionCount, playerCount, None, seat)
            && forall i :: ShouldGiveAction(Finite(dealer), currentActionCount, playerCount, None, i) ==> i == seat
  {
  }

  /**
    The seat offered the buttons is the seat a declaration is attributed to:
    a declaration in the same state names exactly that seat.
   */
  lemma ActingSeatDeclares(s: AppContextValue, action: GameStateAction, index: int)
    requires action.IsDeclaration()
    ensures ShouldGiveAction(CalcCurrentDealer(s.initialDealer, |s.players|, |s.games|),
                             |s.preGameActions|, |s.players|, s.gameType, index)
            <==> s.gameType == None
                 && SetGamestate.SetGamestateAction(s, action).gameType == Some(Declared(action, Finite(index)))
  {
  }

  /** `Roka`: the hand number shown for seat `index`, if any. */
  function Roka(dealer: Num, playerCount: nat, index: int): (r: Option<int>)
    ensures r.Some? ==> 1 <= r.value <= 3
  {
    if SeatAfter(dealer, 1, playerCount) == Finite(index) then Some(1)
    else if SeatAfter(dealer, 2, playerCount) == Finite(index) then Some(2)
    else if SeatAfter(dealer, 3, playerCount) == Finite(index) then Some(3)
    else None
  }

  /**
    Hand labels count seats after the dealer: at a table of four the dealer
    has no hand; at a table of three the dealer is the third hand.
   */
  lemma RokaLabels(dealer: int, playerCount: nat, index: int)
    requires playerCount == 3 || playerCount == 4
    requires 0 <= dealer < playerCount && 0 <= index < playerCount
    ensures index != dealer ==> Roka(Finite(dealer), playerCount, index) == Some((index - dealer + playerCount) % playerCount)
    ensures index == dealer ==> Roka(Finite(dealer), playerCount, index) == (if playerCount == 3 then Some(3) else None)
  {
    var n := playerCount;
    var k := (index - dealer + n) % n;
    assert dealer == 0 || dealer == 1 || dealer == 2 || dealer == 3;
    assert index == 0 || index == 1 || index == 2 || index == 3;
    if n == 3 {
      assert (dealer + 1) % 3 == index <==> k == 1;
      assert (dealer + 2) % 3 == index <==> k == 2;
      assert (dealer + 3) % 3 == index <==> k == 0;
    } else {
      assert (dealer + 1) % 4 == index <==> k == 1;
      assert (dealer + 2) % 4 == index <==> k == 2;
      assert (dealer + 3) % 4 == index <==> k == 3;
    }
  }

  /**
    The result buttons in seat `index`'s cell (`GameTypeInfo`): one "Zaudēja"
    button per seat for a Galdiņš; for a Mazā zole a "Zaudēja" and an
    "Uzvarēja" button, in that order, both dispatching `didWin: true`.
   */
  function SeatButtons(gameType: GameType, index: int): (r: seq<Action>)
    ensures gameType.GaldinsType? ==> r == [GaldinsResult(index)]
    ensures gameType.MazaZoleType? ==> |r| == 2 && r[0].MazaZoleResult? && r[1].MazaZoleResult?
    ensures gameType.MazaZoleType? ==>
              forall i :: 0 <= i < |r| ==> r[i].didWin && r[i].mazaZoleType == gameType
    ensures gameType.ZoleType? || gameType.LielaisType? ==> r == []
  {
    match gameType
    case GaldinsType => [GaldinsResult(index)]
    case MazaZoleType(_) => [MazaZoleResult(true, gameType), MazaZoleResult(true, gameType)]
    case _ => []
  }

  /**
    The "Zaudēja" (lost) button of a Mazā zole records a won game: the
    declarer is credited with the win entry and the cell is coloured green.
   */
  lemma LostButtonRecordsWin(pt: PointTable, s: AppContextValue, gameType: GameType, index: int)
    requires gameType.MazaZoleType?
    ensures var r := AppContextReducer(pt, s, SeatButtons(gameType, index)[0]);
            var g := r.games[|s.games|];
            && g.game == MazaZoleGame(gameType.player, true)
            && forall seat :: g.game.Charged(seat) ==> GameResultClassName(seat, g) == Green
  {
  }

  /** The intended cell buttons: as `SeatButtons`, but the Mazā zole "Zaudēja" button records a loss. */
  function IntendedSeatButtons(gameType: GameType, index: int): (r: seq<Action>)
    ensures !gameType.MazaZoleType? ==> r == SeatButtons(gameType, index)
    ensures gameType.MazaZoleType? ==> |r| == 2 && r[0].MazaZoleResult? && r[1].MazaZoleResult?
    ensures gameType.MazaZoleType? ==>
              !r[0].didWin && r[1].didWin && r[0].mazaZoleType == gameType && r[1].mazaZoleType == gameType
  {
    match gameType
    case MazaZoleType(_) => [MazaZoleResult(false, gameType), MazaZoleResult(true, gameType)]
    case _ => SeatButtons(gameType, index)
  }

  /**
    With the intended buttons, "Zaudēja" records a lost Mazā zole (a red cell
    for the declarer) and "Uzvarēja" a won one (a green cell).
   */
  lemma IntendedButtonsRecordOwnOutcome(pt: PointTable, s: AppContextValue, gameType: GameType, index: int)
    requires gameType.MazaZoleType?
    ensures var lost := AppContextReducer(pt, s, IntendedSeatButtons(gameType, index)[0]).games[|s.games|];
            var won := AppContextReducer(pt, s, IntendedSeatButtons(gameType, index)[1]).games[|s.games|];
            && lost.game == MazaZoleGame(gameType.player, false)
            && won.game == MazaZoleGame(gameType.player, true)
            && (forall seat :: lost.game.Charged(seat) ==> GameResultClassName(seat, lost) == Red)
            && (forall seat :: won.game.Charged(seat) ==> GameResultClassName(seat, won) == Green)
  {
  }

  /**
    The grade buttons under the table (`GameResults`): none for Galdiņš or
    Mazā zole; for Zole and Lielais the three wins, then the losses "30 or
    less", "31 - 60" and "no tricks".
   */
  function GradeButtons(gameType: GameType): (r: seq<Action>)
    ensures gameType.GaldinsType? || gameType.MazaZoleType? ==> r == []
    ensures gameType.ZoleType? || gameType.LielaisType? ==>
              |r| == 6 && forall i :: 0 <= i < 6 ==> r[i].ZoleResult? && r[i].soloType == gameType
  {
    if gameType.GaldinsType? || gameType.MazaZoleType? then []
    else
      var solo: SoloGameType := gameType;
      [ZoleResult(Win61to90, solo), ZoleResult(Win91Plus, solo), ZoleResult(WinAllTricks, solo),
       ZoleResult(Lose30OrLess, solo), ZoleResult(Lose31to60, solo), ZoleResult(LoseNoTricks, solo)]
  }

  /** Each grade button dispatches its own grade: the six buttons cover the six grades, once each. */
  lemma GradeButtonsDistinct(gameType: GameType, g: Grade)
    requires gameType.ZoleType? || gameType.LielaisType?
    ensures forall i, j :: 0 <= i < j < 6 ==> GradeButtons(gameType)[i].result != GradeButtons(gameType)[j].result
    ensures exists i :: 0 <= i < 6 && GradeButtons(gameType)[i].result == g
  {
    var b := GradeButtons(gameType);
    match g
    case Win61to90 => assert b[0].result == g;
    case Win91Plus => assert b[1].result == g;
    case WinAllTricks => assert b[2].result == g;
    case Lose30OrLess => assert b[3].result == g;
    case Lose31to60 => assert b[4].result == g;
    case LoseNoTricks => assert b[5].result == g;
  }
}
