/**
  Dealer and turn arithmetic. The dealer rotates by one seat per played game;
  the seat that acts (and that declares) is the one after the dealer, shifted
  by the number of passes already recorded in the current round.
 */
module Dealer {
  import opened JsValues

  /** The seat `k` places after `dealer` on a table of `n` seats, as `(dealer + k) % n` in JavaScript. */
  function SeatAfter(dealer: Num, k: int, n: nat): (r: Num)
    ensures r.NaN? <==> dealer.NaN? || n == 0
    ensures dealer.Finite? && n > 0 && dealer.v + k >= 0 ==> r == Finite((dealer.v + k) % n)
  {
    match dealer
    case NaN => NaN
    case Finite(d) => Rem(d + k, n)
  }

  /** `calcCurrentDealer`: the dealer of the round after `playedGames` finished games. */
  function CalcCurrentDealer(initialDealer: int, playerCount: nat, playedGames: nat): (r: Num)
    ensures r.NaN? <==> playerCount == 0
    ensures 0 <= initialDealer && playerCount > 0 ==> r.Finite? && 0 <= r.v < playerCount
  {
    SeatAfter(Finite(initialDealer), playedGames, playerCount)
  }

  /** A full rotation of `playerCount` games brings the deal back to the same seat. */
  lemma FullRotation(initialDealer: int, playerCount: nat, playedGames: nat)
    requires 0 <= initialDealer
    ensures CalcCurrentDealer(initialDealer, playerCount, playedGames + playerCount)
         == CalcCurrentDealer(initialDealer, playerCount, playedGames)
  {
    if playerCount > 0 {
      var a := initialDealer + playedGames;
      ModShift(a, playerCount, 1);
    }
  }

  /** Each further game moves the deal exactly one seat on. */
  lemma AdvancesOneSeat(initialDealer: int, playerCount: nat, playedGames: nat)
    requires 0 <= initialDealer && playerCount > 0
    ensures CalcCurrentDealer(initialDealer, playerCount, playedGames + 1).v
         == (CalcCurrentDealer(initialDealer, playerCount, playedGames).v + 1) % playerCount
  {
    var a := initialDealer + playedGames;
    ModSucc(a, playerCount);
  }

  /** Before any game is played, the dealer is the chosen initial dealer. */
  lemma FirstDealerIsInitial(initialDealer: int, playerCount: nat)
    requires 0 <= initialDealer < playerCount
    ensures CalcCurrentDealer(initialDealer, playerCount, 0) == Finite(initialDealer)
  {
  }

  /**
    The JavaScript remainder keeps the sign of the dividend: with the unset
    initial dealer `-1` and no games played, the "current dealer" is `-1`,
    not the last seat.
   */
  lemma UnsetDealerIsNegative(playerCount: nat)
    requires playerCount > 1
    ensures CalcCurrentDealer(-1, playerCount, 0) == Finite(-1)
  {
  }
}
