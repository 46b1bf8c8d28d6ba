/**
  The pure parts of the played-games table: the colour of each (seat, game)
  cell, the totals row, and the separator drawn after every full rotation of
  the deal.
 */
module PlayedGames {
  import opened JsValues
  import opened AppContext
  import opened GameResult
  import opened Dealer

  /** The class a cell gets: green for a win, red for a loss, none for an uninvolved seat. */
  datatype CellClass = NoClass | Green | Red

  /**
    `useGameResultClassName`: only the round's subject is coloured, green when
    the round went its way and red otherwise.
   */
  function GameResultClassName(player: int, game: GameWithScore): (r: CellClass)
    ensures r != NoClass <==> game.game.Charged(player)
    ensures r == Green <==> game.game.Charged(player) && game.game.SubjectWon()
    ensures r == Red <==> game.game.Charged(player) && !game.game.SubjectWon()
  {
    match game.game
    case LielaisGame(p, result) =>
      if p == Finite(player) then
        (if result == Win61to90 || result == Win91Plus || result == WinAllTricks then Green else Red)
      else NoClass
    case ZoleGame(p, result) =>
      if p == Finite(player) then
        (if result == Win61to90 || result == Win91Plus || result == WinAllTricks then Green else Red)
      else NoClass
    case MazaZoleGame(p, didWin) =>
      if p == Finite(player) then (if didWin then Green else Red) else NoClass
    case GaldinsGame(loser) =>
      if loser == player then Red else NoClass
  }

  /**
    The point table follows the usual sign convention: wins are worth a
    positive entry, losses (and losing a Galdiņš) a negative one.
   */
  predicate SignConvention(pt: PointTable) {
    && pt.galdinsLosePerPlayer < 0
    && pt.mazaZoleWinPerPlayer > 0 && pt.mazaZoleLossPerPlayer < 0
    && pt.lielaisWin > 0 && pt.lielaisWinJanos > 0 && pt.lielaisWinBezstiki > 0
    && pt.lielaisLost < 0 && pt.lielaisLostJanos < 0 && pt.lielaisLostBezstiki < 0
    && pt.zoleWin > 0 && pt.zoleWinJanos > 0 && pt.zoleWinBezstiki > 0
    && pt.zoleLost < 0 && pt.zoleLostJanos < 0 && pt.zoleLostBezstiki < 0
  }

  /** Under the sign convention, a game goes the subject's way exactly when its table entry is positive. */
  lemma WonIffPositiveRate(pt: PointTable, game: Game)
    requires SignConvention(pt)
    ensures game.SubjectWon() <==> Rate(pt, game) > 0
    ensures !game.SubjectWon() <==> Rate(pt, game) < 0
  {
  }

  /**
    Under the sign convention and with at least two seats, a cell is green
    exactly when the subject gained points in that round and red exactly when
    it lost points.
   */
  lemma ColourMatchesDiff(pt: PointTable, game: GameWithScore, n: nat, player: int)
    requires SignConvention(pt) && n >= 2 && 0 <= player < n
    requires game.diff == Diff(pt, game.game, n)
    ensures GameResultClassName(player, game) == Green <==> game.game.Charged(player) && game.diff[player] > 0
    ensures GameResultClassName(player, game) == Red <==> game.game.Charged(player) && game.diff[player] < 0
  {
    var c := Rate(pt, game.game);
    WonIffPositiveRate(pt, game.game);
    if game.game.Charged(player) {
      assert game.diff[player] == c * (n - 1);
      if c > 0 {
        assert c * (n - 1) > 0;
      } else {
        assert c * (n - 1) < 0;
      }
    }
  }

  /**
    For any game in a history whose diffs follow the scoring rule (as every
    history the reducer builds does), the cell colour agrees with the sign of
    that seat's recorded change.
   */
  lemma RecordedColourMatchesDiff(pt: PointTable, games: seq<GameWithScore>, n: nat, k: int, player: int)
    requires SignConvention(pt) && n >= 2 && 0 <= player < n
    requires DiffsFollowRule(pt, games, n) && 0 <= k < |games|
    ensures GameResultClassName(player, games[k]) == Green <==> games[k].game.Charged(player) && games[k].diff[player] > 0
    ensures GameResultClassName(player, games[k]) == Red <==> games[k].game.Charged(player) && games[k].diff[player] < 0
  {
    ColourMatchesDiff(pt, games[k], n, player);
  }

  /** The totals row: the last game's `scores`, or a zero per seat before any game. */
  function Totals(games: seq<GameWithScore>, playerCount: nat): (r: seq<Num>)
    ensures |games| == 0 ==> r == Lift(Zeros(playerCount))
    ensures |games| > 0 ==> r == games[|games| - 1].scores
  {
    if |games| == 0 then Lift(Zeros(playerCount)) else games[|games| - 1].scores
  }

  /**
    The totals row shows the totals the next game builds on; in a consistent
    history these are the sums of all `diff` vectors, and they add up to zero
    when every round was zero-sum.
   */
  lemma TotalsAreSumOfDiffs(s: AppContextValue)
    requires ScoresConsistent(s.games, |s.players|)
    ensures Totals(s.games, |s.players|) == GetPreviousScores(s)
    ensures Totals(s.games, |s.players|) == Lift(SumDiffs(s.games, |s.players|))
    ensures (forall k :: 0 <= k < |s.games| ==> Sum(s.games[k].diff) == 0) ==>
              Sum(SumDiffs(s.games, |s.players|)) == 0
  {
    PreviousScoresAreSum(s);
    if forall k :: 0 <= k < |s.games| ==> Sum(s.games[k].diff) == 0 {
      TotalsZeroSum(s.games, |s.players|);
    }
  }

  /** Whether a separator is drawn below row `i`: `i % playerCount === playerCount - 1`. */
  function RowSeparator(i: nat, playerCount: nat): (r: bool)
    ensures r ==> playerCount > 0
  {
    Rem(i, playerCount) == Finite(playerCount - 1)
  }

  /**
    A separator follows row `i` exactly when the game after it is dealt by
    the initial dealer again, i.e. after each full rotation of the deal.
   */
  lemma SeparatorAfterFullRotation(i: nat, initialDealer: int, playerCount: nat)
    requires 0 <= initialDealer < playerCount
    ensures RowSeparator(i, playerCount) <==>
              CalcCurrentDealer(initialDealer, playerCount, i + 1) == Finite(initialDealer)
  {
    assert RowSeparator(i, playerCount) <==> i % playerCount == playerCount - 1;
    assert CalcCurrentDealer(initialDealer, playerCount, i + 1)
        == Finite((initialDealer + i + 1) % playerCount);
    BackToDealer(i, initialDealer, playerCount);
  }

  /** The seat `i + 1` places after `d` is `d` again exactly when `i` is one short of a multiple of `n`. */
  lemma BackToDealer(i: nat, d: int, n: int)
    requires 0 <= d < n
    ensures (d + i + 1) % n == d <==> i % n == n - 1
  {
    ModSucc(i, n);
    var r := (i + 1) % n;
    ModUnique(i + 1, n, (i + 1) / n, r);
    if d + r < n {
      ModUnique(d + i + 1, n, (i + 1) / n, d + r);
    } else {
      ModUnique(d + i + 1, n, (i + 1) / n + 1, d + r - n);
    }
    if i % n + 1 < n {
      ModUnique(i % n + 1, n, 0, i % n + 1);
    } else {
      ModUnique(i % n + 1, n, 1, 0);
    }
  }
}
