/**
  The two configuration actions: replacing the roster and choosing the
  initial dealer. Neither validates its input.
 */
module Setup {
  import opened AppContext

  /** `SetupAction`: the roster becomes `players`, whatever its length; nothing else changes. */
  function SetupAction(s: AppContextValue, players: seq<string>): (r: AppContextValue)
    ensures r.players == players
    ensures r.initialDealer == s.initialDealer && r.games == s.games
    ensures r.preGameActions == s.preGameActions && r.gameType == s.gameType
  {
    s.(players := players)
  }

  /** Setting up the same roster twice is the same as setting it up once. */
  lemma SetupIdempotent(s: AppContextValue, players: seq<string>)
    ensures SetupAction(SetupAction(s, players), players) == SetupAction(s, players)
  {
  }

  /** `DealerSelectAction`: the initial dealer becomes `dealer`, unchecked, and the pass list is cleared. */
  function DealerSelectAction(s: AppContextValue, dealer: int): (r: AppContextValue)
    ensures r.initialDealer == dealer && r.preGameActions == []
    ensures r.players == s.players && r.games == s.games && r.gameType == s.gameType
  {
    s.(initialDealer := dealer, preGameActions := [])
  }

  /** Selecting the same dealer twice is the same as selecting it once. */
  lemma DealerSelectIdempotent(s: AppContextValue, dealer: int)
    ensures DealerSelectAction(DealerSelectAction(s, dealer), dealer) == DealerSelectAction(s, dealer)
  {
  }
}
