/**
  The reducer: every action is routed by its tag to one handler, and an
  action with any other tag leaves the state alone. The lemmas here are about
  whole sequences of actions: the history only grows by result actions, the
  pass list never exceeds two entries, and the running totals always equal
  the sum of every recorded `diff` vector.
 */
module Reducer {
  import opened JsValues
  import opened AppContext
  import opened GameResult
  import SetGamestate
  import Setup

  /** The `type` tags the reducer recognises. */
  const KnownTags: set<string> :=
    {"setup", "select_dealer", "set_gamestate_action",
     "gameresult__zaudeja_galdinu", "gameresult__maza_zole", "gameresult__zole"}

  /** A tag the reducer does not recognise. */
  type UnknownTag = t: string | t !in KnownTags witness ""

  /** The actions dispatched to the reducer. */
  datatype Action =
    | SetupPlayers(players: seq<string>)                          // "setup"
    | SelectDealer(dealer: int)                                   // "select_dealer"
    | SetGamestate(action: GameStateAction)                       // "set_gamestate_action"
    | GaldinsResult(player: int)                                  // "gameresult__zaudeja_galdinu"
    | MazaZoleResult(didWin: bool, mazaZoleType: MazaZoleGameType) // "gameresult__maza_zole"
    | ZoleResult(result: Grade, soloType: SoloGameType)           // "gameresult__zole"
    | Unrecognised(tag: UnknownTag)
  {
    /** The action's `type` field. */
    function Tag(): (t: string)
      ensures Unrecognised? <==> t !in KnownTags
    {
      match this
      case SetupPlayers(_) => "setup"
      case SelectDealer(_) => "select_dealer"
      case SetGamestate(_) => "set_gamestate_action"
      case GaldinsResult(_) => "gameresult__zaudeja_galdinu"
      case MazaZoleResult(_, _) => "gameresult__maza_zole"
      case ZoleResult(_, _) => "gameresult__zole"
      case Unrecognised(tag) => tag
    }

    /** One of the three `gameresult__*` actions. */
    predicate IsResult() {
      GaldinsResult? || MazaZoleResult? || ZoleResult?
    }
  }

  /** Distinct kinds of action carry distinct tags, so a tag selects exactly one handler. */
  lemma TagsIdentifyKinds(a: Action, b: Action)
    requires a.Tag() == b.Tag()
    ensures a.SetupPlayers? <==> b.SetupPlayers?
    ensures a.SelectDealer? <==> b.SelectDealer?
    ensures a.SetGamestate? <==> b.SetGamestate?
    ensures a.GaldinsResult? <==> b.GaldinsResult?
    ensures a.MazaZoleResult? <==> b.MazaZoleResult?
    ensures a.ZoleResult? <==> b.ZoleResult?
  {
  }

  /** `AppContextReducer`, with the point table the result handlers read. */
  function AppContextReducer(pt: PointTable, s: AppContextValue, a: Action): (r: AppContextValue)
    ensures a.IsResult() ==> |r.games| == |s.games| + 1 && r.games[..|s.games|] == s.games
    ensures a.IsResult() ==> r.gameType == None && r.preGameActions == []
    ensures !a.IsResult() ==> r.games == s.games
    ensures !a.SetupPlayers? ==> r.players == s.players
    ensures !a.SelectDealer? ==> r.initialDealer == s.initialDealer
    ensures a.SetupPlayers? ==> r == Setup.SetupAction(s, a.players)
    ensures a.SelectDealer? ==> r == Setup.DealerSelectAction(s, a.dealer)
    ensures a.SetGamestate? ==> r == SetGamestate.SetGamestateAction(s, a.action)
    ensures a.GaldinsResult? ==>
              r.games[|s.games|] == WithScore(pt, GaldinsGame(a.player), GetPreviousScores(s), |s.players|)
    ensures a.MazaZoleResult? ==>
              r.games[|s.games|]
              == WithScore(pt, MazaZoleGame(a.mazaZoleType.player, a.didWin), GetPreviousScores(s), |s.players|)
    ensures a.ZoleResult? && a.soloType.ZoleType? ==>
              r.games[|s.games|]
              == WithScore(pt, ZoleGame(a.soloType.player, a.result), GetPreviousScores(s), |s.players|)
    ensures a.ZoleResult? && a.soloType.LielaisType? ==>
              r.games[|s.games|]
              == WithScore(pt, LielaisGame(a.soloType.player, a.result), GetPreviousScores(s), |s.players|)
    ensures a.Unrecognised? ==> r == s
  {
    match a
    case SetupPlayers(players) => Setup.SetupAction(s, players)
    case SelectDealer(dealer) => Setup.DealerSelectAction(s, dealer)
    case SetGamestate(action) => SetGamestate.SetGamestateAction(s, action)
    case GaldinsResult(player) => GaldinsResultAction(pt, s, player)
    case MazaZoleResult(didWin, gameType) => MazaZoleResultAction(pt, s, didWin, gameType)
    case ZoleResult(result, gameType) => LielaisResultAction(pt, s, result, gameType)
    case Unrecognised(_) => s
  }

  /** Dispatches a sequence of actions in order. */
  function ReduceAll(pt: PointTable, s: AppContextValue, actions: seq<Action>): AppContextValue
    decreases |actions|
  {
    if |actions| == 0 then s else ReduceAll(pt, AppContextReducer(pt, s, actions[0]), actions[1..])
  }

  /** How many of `actions` are result actions. */
  function ResultCount(actions: seq<Action>): nat
    decreases |actions|
  {
    if |actions| == 0 then 0 else (if actions[0].IsResult() then 1 else 0) + ResultCount(actions[1..])
  }

  /** Every setup action in `actions` keeps a roster of `n` players. */
  predicate RosterKept(actions: seq<Action>, n: nat) {
    forall i :: 0 <= i < |actions| && actions[i].SetupPlayers? ==> |actions[i].players| == n
  }

  /**
    The state invariant: every recorded `diff` is the scoring rule applied to
    its outcome, the totals are consistent with the `diff` vectors, and at
    most two passes are recorded.
   */
  predicate Inv(pt: PointTable, s: AppContextValue) {
    && DiffsFollowRule(pt, s.games, |s.players|)
    && ScoresConsistent(s.games, |s.players|)
    && |s.preGameActions| <= 2
  }

  /** One action keeps the invariant, provided a setup does not resize the roster under a non-empty history. */
  lemma StepKeepsInv(pt: PointTable, s: AppContextValue, a: Action)
    requires Inv(pt, s)
    requires a.SetupPlayers? ==> |a.players| == |s.players| || s.games == []
    ensures Inv(pt, AppContextReducer(pt, s, a))
  {
    match a
    case SetGamestate(action) =>
      SetGamestate.PassListStaysShort(s, [action]);
      assert SetGamestate.Bid(s, [action])
          == SetGamestate.Bid(SetGamestate.SetGamestateAction(s, action), []);
    case _ =>
  }

  /**
    Replay equivalence: after any actions that keep the roster, the totals
    the next game builds on are the element-wise sum of every recorded
    `diff`, the history has grown by exactly the result actions, and earlier
    games are kept as a prefix.
   */
  lemma {:induction false} Replay(pt: PointTable, s: AppContextValue, actions: seq<Action>)
    requires Inv(pt, s) && RosterKept(actions, |s.players|)
    ensures var r := ReduceAll(pt, s, actions);
            && Inv(pt, r)
            && |r.players| == |s.players|
            && GetPreviousScores(r) == Lift(SumDiffs(r.games, |s.players|))
            && |r.games| == |s.games| + ResultCount(actions)
            && r.games[..|s.games|] == s.games
    decreases |actions|
  {
    if |actions| == 0 {
      PreviousScoresAreSum(s);
      assert s.games[..|s.games|] == s.games;
    } else {
      var s1 := AppContextReducer(pt, s, actions[0]);
      StepKeepsInv(pt, s, actions[0]);
      assert RosterKept(actions[1..], |s1.players|) by {
        forall i | 0 <= i < |actions[1..]| && actions[1..][i].SetupPlayers?
          ensures |actions[1..][i].players| == |s1.players|
        {
          assert actions[1..][i] == actions[i + 1];
        }
      }
      Replay(pt, s1, actions[1..]);
      var r := ReduceAll(pt, s1, actions[1..]);
      assert r.games[..|s1.games|] == s1.games;
      assert r.games[..|s.games|] == s1.games[..|s.games|];
    }
  }

  /**
    The running totals after any roster-keeping actions depend only on the
    recorded outcomes: they are the scoring rule summed over them.
   */
  lemma ReplayTotalsFollowRule(pt: PointTable, s: AppContextValue, actions: seq<Action>)
    requires Inv(pt, s) && RosterKept(actions, |s.players|)
    ensures var r := ReduceAll(pt, s, actions);
            GetPreviousScores(r) == Lift(RuleTotals(pt, Outcomes(r.games), |s.players|))
  {
    Replay(pt, s, actions);
    var r := ReduceAll(pt, s, actions);
    SumDiffsIsRuleTotals(pt, r.games, |s.players|);
  }

  /**
    From the initial state, after setting up a roster of `players` and any
    actions that keep it: the totals are the sum of one `diff` per result
    action, and the pass list holds at most two entries.
   */
  lemma ReplayFromDefault(pt: PointTable, players: seq<string>, actions: seq<Action>)
    requires RosterKept(actions, |players|)
    ensures var r := ReduceAll(pt, Default(), [SetupPlayers(players)] + actions);
            && |r.players| == |players|
            && GetPreviousScores(r) == Lift(SumDiffs(r.games, |players|))
            && GetPreviousScores(r) == Lift(RuleTotals(pt, Outcomes(r.games), |players|))
            && |r.games| == ResultCount(actions)
            && |r.preGameActions| <= 2
  {
    var s1 := AppContextReducer(pt, Default(), SetupPlayers(players));
    assert ([SetupPlayers(players)] + actions)[1..] == actions;
    Replay(pt, s1, actions);
    ReplayTotalsFollowRule(pt, s1, actions);
  }

  /**
    A round at a table of three with dealer 0: after two passes the third
    hand, which is the dealer, declares Zole.
   */
  lemma {:induction false} ThreeSeatBidding(pt: PointTable)
    ensures var bid := ReduceAll(pt, Default(), ThreeSeatOpening());
            && bid.gameType == Some(ZoleType(Finite(0)))
            && |bid.players| == 3 && bid.games == []
  {
    var acts := ThreeSeatOpening();
    var s0 := AppContextReducer(pt, Default(), acts[0]);
    assert |s0.players| == 3 && s0.games == [] && s0.preGameActions == [];
    var s1 := AppContextReducer(pt, s0, acts[1]);
    assert s1.initialDealer == 0 && s1.preGameActions == [];
    var s2 := AppContextReducer(pt, s1, acts[2]);
    assert s2.preGameActions == [Garam] && s2.gameType == None;
    var s3 := AppContextReducer(pt, s2, acts[3]);
    assert s3.preGameActions == [Garam, Garam] && s3.gameType == None;
    var s4 := AppContextReducer(pt, s3, acts[4]);
    assert s4.gameType == Some(ZoleType(Finite(0)));
    assert ReduceAll(pt, s4, acts[5..]) == s4;
    assert ReduceAll(pt, s3, acts[4..]) == s4;
    assert ReduceAll(pt, s2, acts[3..]) == s4;
    assert ReduceAll(pt, s1, acts[2..]) == s4;
    assert ReduceAll(pt, s0, acts[1..]) == s4;
  }

  /** The opening of the three-seat scenario: roster, dealer 0, two passes, a Zole. */
  function ThreeSeatOpening(): (acts: seq<Action>)
    ensures |acts| == 5
  {
    [SetupPlayers(["A", "B", "C"]), SelectDealer(0), SetGamestate(Garam), SetGamestate(Garam), SetGamestate(BidZole)]
  }

  /**
    Seat 0 wins a first Zole with 91 or more at a table of three; with the
    table entry for that result at 6 it gets 12 and the others -6 each.
   */
  lemma ThreeSeatZoleWin(pt: PointTable, s: AppContextValue)
    requires pt.zoleWinJanos == 6 && |s.players| == 3 && s.games == []
    ensures AppContextReducer(pt, s, ZoleResult(Win91Plus, ZoleType(Finite(0)))).games
         == [GameWithScore(ZoleGame(Finite(0), Win91Plus), Lift([12, -6, -6]), [12, -6, -6])]
  {
    var g := ZoleGame(Finite(0), Win91Plus);
    var d := Diff(pt, g, 3);
    assert Rate(pt, g) == 6;
    assert d == [12, -6, -6];
    var prev := GetPreviousScores(s);
    assert prev == Lift(Zeros(3)) && Zeros(3) == [0, 0, 0];
    assert AddVec([0, 0, 0], d) == [12, -6, -6];
  }
}
