/**
  The scoring engine and the three round-resolution handlers. A resolved
  round charges one seat (the declarer, or the loser of a Galdiņš) `c` times
  the number of other seats and every other seat `-c`, where `c` is the point
  table entry for the variant and result; the per-seat changes are added to
  the previous running totals and the scored game is appended to the history.
 */
module GameResult {
  import opened JsValues
  import opened AppContext

  /**
    The point table, one entry per variant and result. Its values are not part
    of this model: every property below holds whatever they are.
   */
  datatype PointTable = PointTable(
    galdinsLosePerPlayer: int,
    mazaZoleWinPerPlayer: int,
    mazaZoleLossPerPlayer: int,
    lielaisWin: int,
    lielaisWinJanos: int,
    lielaisWinBezstiki: int,
    lielaisLost: int,
    lielaisLostJanos: int,
    lielaisLostBezstiki: int,
    zoleWin: int,
    zoleWinJanos: int,
    zoleWinBezstiki: int,
    zoleLost: int,
    zoleLostJanos: int,
    zoleLostBezstiki: int)

  /** The `gameType` payload of a Mazā zole result action. */
  type MazaZoleGameType = t: GameType | t.MazaZoleType? witness MazaZoleType(NaN)

  /** The `gameType` payload of a Zole or Lielais result action. */
  type SoloGameType = t: GameType | t.ZoleType? || t.LielaisType? witness ZoleType(NaN)

  /**
    `getPointsForGameForPlayer`: the change in `player`'s total for `game` at a
    table of `playerCount`. The round's subject gets `c * (playerCount - 1)`
    and every other seat gets `-c`, for the table entry `c` of the game.
   */
  function PointsForPlayer(pt: PointTable, game: Game, player: int, playerCount: nat): (p: int)
    ensures game.Charged(player) ==> p == Rate(pt, game) * (playerCount - 1)
    ensures !game.Charged(player) ==> p == -Rate(pt, game)
  {
    var modifier := playerCount - 1;
    match game
    case GaldinsGame(loser) =>
      if loser == player then pt.galdinsLosePerPlayer * modifier else -pt.galdinsLosePerPlayer
    case MazaZoleGame(p, didWin) =>
      if didWin then
        (if p == Finite(player) then pt.mazaZoleWinPerPlayer * modifier else -pt.mazaZoleWinPerPlayer)
      else
        (if p == Finite(player) then pt.mazaZoleLossPerPlayer * modifier else -pt.mazaZoleLossPerPlayer)
    case LielaisGame(p, result) =>
      var c := match result
        case Win61to90 => pt.lielaisWin
        case Win91Plus => pt.lielaisWinJanos
        case WinAllTricks => pt.lielaisWinBezstiki
        case Lose31to60 => pt.lielaisLost
        case Lose30OrLess => pt.lielaisLostJanos
        case LoseNoTricks => pt.lielaisLostBezstiki;
      if Finite(player) == p then c * modifier else -c
    case ZoleGame(p, result) =>
      var c := match result
        case Win61to90 => pt.zoleWin
        case Win91Plus => pt.zoleWinJanos
        case WinAllTricks => pt.zoleWinBezstiki
        case Lose31to60 => pt.zoleLost
        case Lose30OrLess => pt.zoleLostJanos
        case LoseNoTricks => pt.zoleLostBezstiki;
      if Finite(player) == p then c * modifier else -c
  }

  /** The table entry `c` a game is scored with: one per variant and result. */
  function Rate(pt: PointTable, game: Game): (c: int)
    ensures game.GaldinsGame? ==> c == pt.galdinsLosePerPlayer
    ensures game.MazaZoleGame? && game.didWin ==> c == pt.mazaZoleWinPerPlayer
    ensures game.MazaZoleGame? && !game.didWin ==> c == pt.mazaZoleLossPerPlayer
  {
    match game
    case GaldinsGame(_) => pt.galdinsLosePerPlayer
    case MazaZoleGame(_, didWin) => if didWin then pt.mazaZoleWinPerPlayer else pt.mazaZoleLossPerPlayer
    case LielaisGame(_, result) => SoloRate(result, pt.lielaisWin, pt.lielaisWinJanos, pt.lielaisWinBezstiki,
                                            pt.lielaisLost, pt.lielaisLostJanos, pt.lielaisLostBezstiki)
    case ZoleGame(_, result) => SoloRate(result, pt.zoleWin, pt.zoleWinJanos, pt.zoleWinBezstiki,
                                         pt.zoleLost, pt.zoleLostJanos, pt.zoleLostBezstiki)
  }

  /** The entry for a solo grade among the six entries of Zole or of Lielais. */
  function SoloRate(g: Grade, win: int, winJanos: int, winBezstiki: int,
                    lost: int, lostJanos: int, lostBezstiki: int): int
  {
    match g
    case Win61to90 => win
    case Win91Plus => winJanos
    case WinAllTricks => winBezstiki
    case Lose31to60 => lost
    case Lose30OrLess => lostJanos
    case LoseNoTricks => lostBezstiki
  }

  /** The point table with the six Zole entries and the six Lielais entries exchanged. */
  function SwapSolo(pt: PointTable): PointTable
  {
    pt.(lielaisWin := pt.zoleWin, lielaisWinJanos := pt.zoleWinJanos,
        lielaisWinBezstiki := pt.zoleWinBezstiki, lielaisLost := pt.zoleLost,
        lielaisLostJanos := pt.zoleLostJanos, lielaisLostBezstiki := pt.zoleLostBezstiki,
        zoleWin := pt.lielaisWin, zoleWinJanos := pt.lielaisWinJanos,
        zoleWinBezstiki := pt.lielaisWinBezstiki, zoleLost := pt.lielaisLost,
        zoleLostJanos := pt.lielaisLostJanos, zoleLostBezstiki := pt.lielaisLostBezstiki)
  }

  /** Zole and Lielais are scored alike: they differ only in which table entries are used. */
  lemma ZoleIsLielaisWithOtherEntries(pt: PointTable, p: Num, g: Grade, player: int, playerCount: nat)
    ensures PointsForPlayer(pt, ZoleGame(p, g), player, playerCount)
         == PointsForPlayer(SwapSolo(pt), LielaisGame(p, g), player, playerCount)
  {
  }

  /** The sum of a vector. */
  function Sum(s: seq<int>): int
  {
    if |s| == 0 then 0 else Sum(s[..|s| - 1]) + s[|s| - 1]
  }

  /**
    A vector that holds `-a` everywhere except at `c`, where it holds `x`,
    sums to `x - a * (|s| - 1)`; without a position `c` it sums to `-a * |s|`.
   */
  lemma {:induction false} SumAllButOne(s: seq<int>, c: int, x: int, a: int)
    requires forall i :: 0 <= i < |s| && i != c ==> s[i] == -a
    requires 0 <= c < |s| ==> s[c] == x
    ensures 0 <= c < |s| ==> Sum(s) == x - a * (|s| - 1)
    ensures !(0 <= c < |s|) ==> Sum(s) == -a * |s|
  {
    if |s| > 0 {
      var m := |s| - 1;
      var t := s[..m];
      assert forall i :: 0 <= i < |t| ==> t[i] == s[i];
      SumAllButOne(t, c, x, a);
      assert a * |s| == a * m + a;
      if c == m {
        assert Sum(s) == -a * m + x;
      } else if 0 <= c < m {
        assert a * m == a * (m - 1) + a;
      }
    }
  }

  /** The per-seat changes of one round: `diff` in `withScore`. */
  function Diff(pt: PointTable, game: Game, n: nat): (r: seq<int>)
    ensures |r| == n
    ensures forall i :: 0 <= i < n && game.Charged(i) ==> r[i] == Rate(pt, game) * (n - 1)
    ensures forall i :: 0 <= i < n && !game.Charged(i) ==> r[i] == -Rate(pt, game)
    ensures game.SubjectSeated(n) ==> Sum(r) == 0
    ensures !game.SubjectSeated(n) ==> Sum(r) == -Rate(pt, game) * n
  {
    var r := seq(n, i requires 0 <= i < n => PointsForPlayer(pt, game, i, n));
    DiffSums(pt, game, n, r);
    r
  }

  /** The zero-sum argument for `Diff`: one seat gets `c * (n - 1)`, the other `n - 1` seats `-c` each. */
  lemma DiffSums(pt: PointTable, game: Game, n: nat, r: seq<int>)
    requires |r| == n && forall i :: 0 <= i < n ==> r[i] == PointsForPlayer(pt, game, i, n)
    ensures forall i :: 0 <= i < n && game.Charged(i) ==> r[i] == Rate(pt, game) * (n - 1)
    ensures forall i :: 0 <= i < n && !game.Charged(i) ==> r[i] == -Rate(pt, game)
    ensures game.SubjectSeated(n) ==> Sum(r) == 0
    ensures !game.SubjectSeated(n) ==> Sum(r) == -Rate(pt, game) * n
  {
    var c := Rate(pt, game);
    var subject := if game.Subject().Finite? then game.Subject().v else -1;
    assert game.SubjectSeated(n) <==> 0 <= subject < n;
    SumAllButOne(r, subject, c * (n - 1), c);
  }

  /** Element-wise `a[i] + b[i]` over the seats of `a`; a seat missing from `b` adds nothing. */
  function AddVec(a: seq<int>, b: seq<int>): (r: seq<int>)
    ensures |r| == |a|
    ensures forall i :: 0 <= i < |a| && i < |b| ==> r[i] == a[i] + b[i]
  {
    seq(|a|, i requires 0 <= i < |a| => a[i] + (if i < |b| then b[i] else 0))
  }

  /**
    `withScore`: the scored game. `diff` has one entry per seat at the table,
    and `scores` adds it to `previousScores` seat by seat; a previous total
    with no matching seat in `diff` becomes `NaN`.
   */
  function WithScore(pt: PointTable, game: Game, previousScores: seq<Num>, n: nat): (r: GameWithScore)
    ensures r.game == game && r.diff == Diff(pt, game, n)
    ensures |r.scores| == |previousScores|
    ensures forall i :: 0 <= i < |previousScores| && i < n ==>
              r.scores[i] == Add(previousScores[i], Finite(r.diff[i]))
    ensures forall i :: n <= i < |previousScores| ==> r.scores[i] == NaN
    ensures forall v :: previousScores == Lift(v) && |v| == n ==> r.scores == Lift(AddVec(v, r.diff))
  {
    var diff := Diff(pt, game, n);
    var scores := seq(|previousScores|, i requires 0 <= i < |previousScores| =>
      Add(previousScores[i], if i < |diff| then Finite(diff[i]) else NaN));
    GameWithScore(game, scores, diff)
  }

  /** `getPreviousScores`: the running totals before the next game. */
  function GetPreviousScores(s: AppContextValue): (r: seq<Num>)
    ensures |s.games| == 0 ==> r == Lift(Zeros(|s.players|))
    ensures |s.games| > 0 ==> r == s.games[|s.games| - 1].scores
  {
    if |s.games| > 0 then s.games[|s.games| - 1].scores else Lift(Zeros(|s.players|))
  }

  /** The element-wise sum of the `diff` vectors of `games`, over `n` seats: the reference for every running total. */
  function SumDiffs(games: seq<GameWithScore>, n: nat): (r: seq<int>)
    ensures |r| == n
  {
    if |games| == 0 then Zeros(n)
    else AddVec(SumDiffs(games[..|games| - 1], n), games[|games| - 1].diff)
  }

  /**
    Every recorded game has one `diff` entry per seat, and its `scores` are the
    sum of the `diff` vectors of all games up to and including it.
   */
  predicate ScoresConsistent(games: seq<GameWithScore>, n: nat) {
    forall k :: 0 <= k < |games| ==>
      |games[k].diff| == n && games[k].scores == Lift(SumDiffs(games[..k + 1], n))
  }

  /** Under consistency the previous totals are the sum of all earlier `diff` vectors. */
  lemma {:induction false} PreviousScoresAreSum(s: AppContextValue)
    requires ScoresConsistent(s.games, |s.players|)
    ensures GetPreviousScores(s) == Lift(SumDiffs(s.games, |s.players|))
  {
    if |s.games| > 0 {
      var k := |s.games| - 1;
      assert s.games[..k + 1] == s.games;
    }
  }

  /** Appending a game whose totals extend the sum of the earlier ones keeps the history consistent. */
  lemma {:induction false} AppendConsistent(games: seq<GameWithScore>, g: GameWithScore, n: nat)
    requires ScoresConsistent(games, n)
    requires |g.diff| == n && g.scores == Lift(AddVec(SumDiffs(games, n), g.diff))
    ensures ScoresConsistent(games + [g], n)
  {
    var all := games + [g];
    forall k | 0 <= k < |all|
      ensures |all[k].diff| == n && all[k].scores == Lift(SumDiffs(all[..k + 1], n))
    {
      if k < |games| {
        assert all[..k + 1] == games[..k + 1];
      } else {
        assert all[..k + 1] == all;
        assert all[..|all| - 1] == games;
      }
    }
  }

  /** Summing is additive over element-wise addition of equally long vectors. */
  lemma {:induction false} SumAddVec(a: seq<int>, b: seq<int>)
    requires |a| == |b|
    ensures Sum(AddVec(a, b)) == Sum(a) + Sum(b)
    decreases |a|
  {
    if |a| > 0 {
      var m := |a| - 1;
      assert AddVec(a, b)[..m] == AddVec(a[..m], b[..m]);
      SumAddVec(a[..m], b[..m]);
    }
  }

  /** The sum of `n` zeros. */
  lemma {:induction false} SumZeros(n: nat)
    ensures Sum(Zeros(n)) == 0
  {
    if n > 0 {
      assert Zeros(n)[..n - 1] == Zeros(n - 1);
      SumZeros(n - 1);
    }
  }

  /** When every recorded round is zero-sum, so are the accumulated totals. */
  lemma {:induction false} TotalsZeroSum(games: seq<GameWithScore>, n: nat)
    requires forall k :: 0 <= k < |games| ==> |games[k].diff| == n && Sum(games[k].diff) == 0
    ensures Sum(SumDiffs(games, n)) == 0
    decreases |games|
  {
    if |games| == 0 {
      SumZeros(n);
    } else {
      var m := |games| - 1;
      TotalsZeroSum(games[..m], n);
      SumAddVec(SumDiffs(games[..m], n), games[m].diff);
    }
  }

  /** Every recorded game's `diff` is the scoring rule applied to its outcome at `n` seats. */
  predicate DiffsFollowRule(pt: PointTable, games: seq<GameWithScore>, n: nat) {
    forall k :: 0 <= k < |games| ==> games[k].diff == Diff(pt, games[k].game, n)
  }

  /** The outcomes recorded in `games`, in order. */
  function Outcomes(games: seq<GameWithScore>): (r: seq<Game>)
    ensures |r| == |games|
    ensures forall k :: 0 <= k < |games| ==> r[k] == games[k].game
  {
    seq(|games|, k requires 0 <= k < |games| => games[k].game)
  }

  /** The reference totals: the scoring rule summed, seat by seat, over a sequence of outcomes. */
  function RuleTotals(pt: PointTable, outcomes: seq<Game>, n: nat): (r: seq<int>)
    ensures |r| == n
  {
    if |outcomes| == 0 then Zeros(n)
    else AddVec(RuleTotals(pt, outcomes[..|outcomes| - 1], n), Diff(pt, outcomes[|outcomes| - 1], n))
  }

  /** When every diff follows the scoring rule, the summed diffs depend only on the recorded outcomes. */
  lemma {:induction false} SumDiffsIsRuleTotals(pt: PointTable, games: seq<GameWithScore>, n: nat)
    requires DiffsFollowRule(pt, games, n)
    ensures SumDiffs(games, n) == RuleTotals(pt, Outcomes(games), n)
    decreases |games|
  {
    if |games| > 0 {
      var m := |games| - 1;
      var prefix := games[..m];
      assert DiffsFollowRule(pt, prefix, n) by {
        forall k | 0 <= k < |prefix|
          ensures prefix[k].diff == Diff(pt, prefix[k].game, n)
        {
          assert prefix[k] == games[k];
        }
      }
      assert Outcomes(games)[..m] == Outcomes(prefix);
      SumDiffsIsRuleTotals(pt, prefix, n);
    }
  }

  /**
    The common tail of the three result handlers: append `game` scored against
    the previous totals, clear the declared game type and the pass list.
   */
  function AppendScored(pt: PointTable, s: AppContextValue, game: Game): (r: AppContextValue)
    ensures |r.games| == |s.games| + 1 && r.games[..|s.games|] == s.games
    ensures r.games[|s.games|] == WithScore(pt, game, GetPreviousScores(s), |s.players|)
    ensures r.gameType == None && r.preGameActions == []
    ensures r.players == s.players && r.initialDealer == s.initialDealer
    ensures game.SubjectSeated(|s.players|) ==> Sum(r.games[|s.games|].diff) == 0
    ensures ScoresConsistent(s.games, |s.players|) ==> ScoresConsistent(r.games, |s.players|)
    ensures DiffsFollowRule(pt, s.games, |s.players|) ==> DiffsFollowRule(pt, r.games, |s.players|)
  {
    var n := |s.players|;
    var scored := WithScore(pt, game, GetPreviousScores(s), n);
    ScoredKeepsConsistency(pt, s, game);
    assert (s.games + [scored])[..|s.games|] == s.games;
    s.(games := s.games + [scored], gameType := None, preGameActions := [])
  }

  /** The diff `AppendScored` records: the scoring rule for `game` at the table's seats. */
  lemma RecordedDiff(pt: PointTable, s: AppContextValue, game: Game)
    ensures var d := AppendScored(pt, s, game).games[|s.games|].diff;
            && d == Diff(pt, game, |s.players|)
            && (forall i :: 0 <= i < |s.players| ==>
                  d[i] == if game.Charged(i) then Rate(pt, game) * (|s.players| - 1) else -Rate(pt, game))
            && (game.SubjectSeated(|s.players|) ==> Sum(d) == 0)
  {
  }

  /** The replay step: scoring a game against the previous totals keeps the history consistent. */
  lemma ScoredKeepsConsistency(pt: PointTable, s: AppContextValue, game: Game)
    ensures ScoresConsistent(s.games, |s.players|) ==>
              ScoresConsistent(s.games + [WithScore(pt, game, GetPreviousScores(s), |s.players|)], |s.players|)
  {
    if ScoresConsistent(s.games, |s.players|) {
      PreviousScoresAreSum(s);
      AppendConsistent(s.games, WithScore(pt, game, GetPreviousScores(s), |s.players|), |s.players|);
    }
  }

  /**
    `GaldinsResultAction`: seat `player` lost the Galdiņš. The loser is charged
    `c * (n - 1)` with the Galdiņš entry `c` and every other seat `-c`.
   */
  function GaldinsResultAction(pt: PointTable, s: AppContextValue, player: int): (r: AppContextValue)
    ensures |r.games| == |s.games| + 1 && r.games[..|s.games|] == s.games
    ensures r.games[|s.games|] == WithScore(pt, GaldinsGame(player), GetPreviousScores(s), |s.players|)
    ensures var d := r.games[|s.games|].diff;
            && |d| == |s.players|
            && (forall i :: 0 <= i < |s.players| ==>
                  d[i] == if i == player then pt.galdinsLosePerPlayer * (|s.players| - 1) else -pt.galdinsLosePerPlayer)
            && (0 <= player < |s.players| ==> Sum(d) == 0)
    ensures r.gameType == None && r.preGameActions == []
    ensures r.players == s.players && r.initialDealer == s.initialDealer
  {
    RecordedDiff(pt, s, GaldinsGame(player));
    AppendScored(pt, s, GaldinsGame(player))
  }

  /**
    `MazaZoleResultAction`: the declarer named by the action's own game type
    won or lost; the win or loss entry `c` is charged `c * (n - 1)` to the
    declarer and `-c` to every other seat.
   */
  function MazaZoleResultAction(pt: PointTable, s: AppContextValue, didWin: bool, gameType: MazaZoleGameType)
    : (r: AppContextValue)
    ensures |r.games| == |s.games| + 1 && r.games[..|s.games|] == s.games
    ensures r.games[|s.games|] == WithScore(pt, MazaZoleGame(gameType.player, didWin), GetPreviousScores(s), |s.players|)
    ensures var d := r.games[|s.games|].diff;
            var c := if didWin then pt.mazaZoleWinPerPlayer else pt.mazaZoleLossPerPlayer;
            && |d| == |s.players|
            && (forall i :: 0 <= i < |s.players| ==> d[i] == if gameType.player == Finite(i) then c * (|s.players| - 1) else -c)
            && (gameType.player.Finite? && 0 <= gameType.player.v < |s.players| ==> Sum(d) == 0)
    ensures r.gameType == None && r.preGameActions == []
    ensures r.players == s.players && r.initialDealer == s.initialDealer
  {
    RecordedDiff(pt, s, MazaZoleGame(gameType.player, didWin));
    AppendScored(pt, s, MazaZoleGame(gameType.player, didWin))
  }

  /**
    `LielaisResultAction`: a Zole or Lielais, as the action's own game type
    says, ended with `result`; the declarer is charged `c * (n - 1)` and every
    other seat `-c`, for the entry `c` of that variant and grade.
   */
  function LielaisResultAction(pt: PointTable, s: AppContextValue, result: Grade, gameType: SoloGameType)
    : (r: AppContextValue)
    ensures |r.games| == |s.games| + 1 && r.games[..|s.games|] == s.games
    ensures gameType.ZoleType? ==>
              r.games[|s.games|] == WithScore(pt, ZoleGame(gameType.player, result), GetPreviousScores(s), |s.players|)
    ensures gameType.LielaisType? ==>
              r.games[|s.games|] == WithScore(pt, LielaisGame(gameType.player, result), GetPreviousScores(s), |s.players|)
    ensures var d := r.games[|s.games|].diff;
            var c := if gameType.ZoleType?
                     then SoloRate(result, pt.zoleWin, pt.zoleWinJanos, pt.zoleWinBezstiki,
                                   pt.zoleLost, pt.zoleLostJanos, pt.zoleLostBezstiki)
                     else SoloRate(result, pt.lielaisWin, pt.lielaisWinJanos, pt.lielaisWinBezstiki,
                                   pt.lielaisLost, pt.lielaisLostJanos, pt.lielaisLostBezstiki);
            && |d| == |s.players|
            && (forall i :: 0 <= i < |s.players| ==> d[i] == if gameType.player == Finite(i) then c * (|s.players| - 1) else -c)
            && (gameType.player.Finite? && 0 <= gameType.player.v < |s.players| ==> Sum(d) == 0)
    ensures r.gameType == None && r.preGameActions == []
    ensures r.players == s.players && r.initialDealer == s.initialDealer
  {
    var game := if gameType.ZoleType? then ZoleGame(gameType.player, result)
                else LielaisGame(gameType.player, result);
    RecordedDiff(pt, s, game);
    AppendScored(pt, s, game)
  }
}
