/**
  The bidding phase of a round. Passes accumulate in `preGameActions`; a pass
  while two are already recorded makes the round a Galdiņš; a declaration
  fixes the game type and the declaring seat, which is the seat after the
  current dealer shifted by the passes so far.
 */
module SetGamestate {
  import opened JsValues
  import opened AppContext
  import opened Dealer

  /** The seat whose turn it is to pass or declare: `(currentDealer + passes + 1) % playerCount`. */
  function ActingSeat(s: AppContextValue): (r: Num)
    ensures 0 <= s.initialDealer && |s.players| > 0 ==>
              r.Finite? && 0 <= r.v < |s.players|
              && r.v == (CalcCurrentDealer(s.initialDealer, |s.players|, |s.games|).v
                         + |s.preGameActions| + 1) % |s.players|
  {
    var currentDealer := CalcCurrentDealer(s.initialDealer, |s.players|, |s.games|);
    SeatAfter(currentDealer, |s.preGameActions| + 1, |s.players|)
  }

  /** `SetGamestateAction`: record a pass or a declaration. */
  function SetGamestateAction(s: AppContextValue, action: GameStateAction): (r: AppContextValue)
    ensures r.players == s.players && r.initialDealer == s.initialDealer && r.games == s.games
    ensures action.Garam? && |s.preGameActions| == 2 ==>
              r.gameType == Some(GaldinsType) && r.preGameActions == s.preGameActions
    ensures action.Garam? && |s.preGameActions| != 2 ==>
              r.preGameActions == s.preGameActions + [Garam] && r.gameType == s.gameType
    ensures action.IsDeclaration() ==>
              r.gameType == Some(Declared(action, ActingSeat(s))) && r.preGameActions == s.preGameActions
  {
    if action == Garam then
      if |s.preGameActions| == 2 then
        s.(gameType := Some(GaldinsType))
      else
        s.(preGameActions := s.preGameActions + [action])
    else
      s.(gameType := Some(Declared(action, ActingSeat(s))))
  }

  /** Applies a sequence of bidding actions in order. */
  function Bid(s: AppContextValue, actions: seq<GameStateAction>): AppContextValue
    decreases |actions|
  {
    if |actions| == 0 then s else Bid(SetGamestateAction(s, actions[0]), actions[1..])
  }

  /** However many passes and declarations follow, a pass list of at most two entries never grows past two. */
  lemma {:induction false} PassListStaysShort(s: AppContextValue, actions: seq<GameStateAction>)
    requires |s.preGameActions| <= 2
    ensures |Bid(s, actions).preGameActions| <= 2
    decreases |actions|
  {
    if |actions| > 0 {
      PassListStaysShort(SetGamestateAction(s, actions[0]), actions[1..]);
    }
  }

  /** Three passes from an empty pass list make the round a Galdiņš with no declarer. */
  lemma {:induction false} ThreePassesMakeGaldins(s: AppContextValue)
    requires s.preGameActions == []
    ensures Bid(s, [Garam, Garam, Garam]).gameType == Some(GaldinsType)
    ensures Bid(s, [Garam, Garam, Garam]).preGameActions == [Garam, Garam]
  {
    var s1 := SetGamestateAction(s, Garam);
    var s2 := SetGamestateAction(s1, Garam);
    assert Bid(s, [Garam, Garam, Garam]) == Bid(s1, [Garam, Garam]) by {
      assert [Garam, Garam, Garam][1..] == [Garam, Garam];
    }
    assert Bid(s1, [Garam, Garam]) == Bid(s2, [Garam]) by {
      assert [Garam, Garam][1..] == [Garam];
    }
  }

  /** With a valid dealer, the declaring seat is one of the seats at the table. */
  lemma DeclarerIsSeated(s: AppContextValue, action: GameStateAction)
    requires action.IsDeclaration()
    requires 0 <= s.initialDealer && |s.players| > 0
    ensures var t := SetGamestateAction(s, action).gameType;
            t.Some? && t.value.player.Finite? && 0 <= t.value.player.v < |s.players|
  {
  }

  /**
    The unset initial dealer `-1` still gives a seat to act and declare: before
    the first game the current dealer is `-1` (or `0` alone at the table), so
    the acting seat is the pass count taken modulo the player count.
   */
  lemma UnsetDealerStillSeats(s: AppContextValue)
    requires s.initialDealer == -1 && |s.players| > 0
    ensures ActingSeat(s).Finite? && 0 <= ActingSeat(s).v < |s.players|
  {
    var n := |s.players|;
    if |s.games| == 0 && n > 1 {
      assert CalcCurrentDealer(-1, n, 0) == Finite(-1);
    }
  }

  /** A dealer below `-1` can make the acting seat negative: dealer `-2` at three seats with no passes gives seat `-1`. */
  lemma LowerDealerSeatsNegative(s: AppContextValue)
    requires s.initialDealer == -2 && |s.players| == 3 && s.games == [] && s.preGameActions == []
    ensures ActingSeat(s) == Finite(-1)
  {
  }

  /**
    At a table of four the dealer sits the bidding out: after at most two
    passes the declaring seat is never the current dealer.
   */
  lemma DealerNeverDeclaresAtFour(s: AppContextValue, action: GameStateAction)
    requires action.IsDeclaration()
    requires 0 <= s.initialDealer && |s.players| == 4 && |s.preGameActions| <= 2
    ensures SetGamestateAction(s, action).gameType.value.player
         != CalcCurrentDealer(s.initialDealer, 4, |s.games|)
  {
    var d := CalcCurrentDealer(s.initialDealer, 4, |s.games|).v;
    var k := |s.preGameActions|;
    assert (d + k + 1) % 4 != d;
  }

  /**
    At a table of three the third hand is the dealer: after two passes the
    declaring seat is the current dealer.
   */
  lemma DealerDeclaresThirdAtThree(s: AppContextValue, action: GameStateAction)
    requires action.IsDeclaration()
    requires 0 <= s.initialDealer && |s.players| == 3 && |s.preGameActions| == 2
    ensures SetGamestateAction(s, action).gameType.value.player
         == CalcCurrentDealer(s.initialDealer, 3, |s.games|)
  {
    var d := CalcCurrentDealer(s.initialDealer, 3, |s.games|).v;
    assert (d + 3) % 3 == d;
  }

  /** Nothing stops a second declaration: it replaces whatever game type was set. */
  lemma DeclarationOverwrites(s: AppContextValue, first: GameStateAction, second: GameStateAction)
    requires first.IsDeclaration() && second.IsDeclaration()
    ensures SetGamestateAction(SetGamestateAction(s, first), second).gameType
         == Some(Declared(second, ActingSeat(s)))
  {
  }
}
