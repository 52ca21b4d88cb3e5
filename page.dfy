/** The home page: which of the three screens is shown, the key that forces a
    fresh quiz on "Play Again", and the results of the last finished game. */
module Page {
  import opened Common

  datatype View = Game | Results | LeaderboardScreen

  /** What a finished quiz hands to the page. */
  datatype GameResults = GameResults(score: int, timeRemaining: int, playerName: string)

  datatype Home = Home(view: View, gameKey: nat, results: Option<GameResults>)

  /** What the user or a child screen can do. */
  datatype Event =
    | Finished(score: int, timeRemaining: int, playerName: string)
    | Restarted
    | ViewedLeaderboard
    | BackToGame

  function Initial(): (h: Home)
    ensures h.view == Game && h.gameKey == 0 && h.results.None?
  {
    Home(Game, 0, None)
  }

  /** The results screen is only ever reached with results to show. */
  predicate Inv(h: Home) {
    h.view == Results ==> h.results.Some?
  }

  /** One handler. Finishing records the results and shows them; "Play Again"
      bumps the key, forgets the results and goes back to the game; the
      leaderboard button changes the view alone; and "back" returns to the
      game without a new key. */
  function Apply(h: Home, e: Event): (r: Home)
    ensures e.Finished? ==>
              r == Home(Results, h.gameKey, Some(GameResults(e.score, e.timeRemaining, e.playerName)))
    ensures e.Restarted? ==> r.gameKey == h.gameKey + 1 && r.results.None? && r.view == Game
    ensures e.ViewedLeaderboard? ==> r.results == h.results && r.gameKey == h.gameKey && r.view == LeaderboardScreen
    ensures e.BackToGame? ==> r.results == h.results && r.gameKey == h.gameKey && r.view == Game
    ensures Inv(h) ==> Inv(r)
  {
    match e
    case Finished(score, timeRemaining, playerName) =>
      h.(results := Some(GameResults(score, timeRemaining, playerName)), view := Results)
    case Restarted => Home(Game, h.gameKey + 1, None)
    case ViewedLeaderboard => h.(view := LeaderboardScreen)
    case BackToGame => h.(view := Game)
  }

  function Run(h: Home, events: seq<Event>): Home
    decreases |events|
  {
    if events == [] then h else Run(Apply(h, events[0]), events[1..])
  }

  function Restarts(events: seq<Event>): (n: nat)
    ensures n <= |events|
  {
    if events == [] then 0 else (if events[0].Restarted? then 1 else 0) + Restarts(events[1..])
  }

  /** Every reachable page keeps the invariant. */
  lemma {:induction false} RunKeepsInv(h: Home, events: seq<Event>)
    requires Inv(h)
    ensures Inv(Run(h, events))
    decreases |events|
  {
    if events != [] {
      RunKeepsInv(Apply(h, events[0]), events[1..]);
    }
  }

  /** The key counts the restarts and nothing else: any other sequence of
      handlers leaves the quiz's key where it was. */
  lemma {:induction false} KeyCountsRestarts(h: Home, events: seq<Event>)
    ensures Run(h, events).gameKey == h.gameKey + Restarts(events)
    decreases |events|
  {
    if events != [] {
      KeyCountsRestarts(Apply(h, events[0]), events[1..]);
    }
  }

  /** Going to the leaderboard and back keeps the results and the key. */
  lemma LeaderboardRoundTrip(h: Home)
    ensures Run(h, [ViewedLeaderboard, BackToGame]) == h.(view := Game)
  {
    assert [ViewedLeaderboard, BackToGame][1..] == [BackToGame];
  }

  // ---------------------------------------------------------------------------
  // What is rendered

  /** The header's leaderboard button shows on every screen but the leaderboard. */
  predicate ShowsLeaderboardButton(h: Home) {
    h.view != LeaderboardScreen
  }

  /** The quiz is mounted, under the current key, on the game view. */
  function MountedGame(h: Home): (k: Option<nat>)
    ensures k.Some? <==> h.view == Game
    ensures k.Some? ==> k.value == h.gameKey
  {
    if h.view == Game then Some(h.gameKey) else None
  }

  /** The results screen renders on the results view when there are results. */
  function ShownResults(h: Home): (r: Option<GameResults>)
    ensures r.Some? ==> h.view == Results && h.results == r
    ensures Inv(h) && h.view == Results ==> r.Some?
  {
    if h.view == Results && h.results.Some? then h.results else None
  }

  /** The name the leaderboard highlights: the last results' player, if any. */
  function HighlightName(h: Home): (r: Option<string>)
    ensures r.Some? <==> h.results.Some?
    ensures r.Some? ==> r.value == h.results.value.playerName
  {
    match h.results
    case Some(g) => Some(g.playerName)
    case None => None
  }

  /** Exactly one of the three screens is rendered in every reachable state,
      and the header button is there whenever the leaderboard is not. */
  lemma OneScreenAtATime(h: Home)
    requires Inv(h)
    ensures MountedGame(h).Some? || ShownResults(h).Some? || h.view == LeaderboardScreen
    ensures !(MountedGame(h).Some? && ShownResults(h).Some?)
    ensures h.view == LeaderboardScreen ==> MountedGame(h).None? && ShownResults(h).None?
    ensures ShowsLeaderboardButton(h) <==> MountedGame(h).Some? || ShownResults(h).Some?
  {
  }

  /** After finishing and opening the leaderboard, the player just finished is highlighted. */
  lemma FinishedPlayerIsHighlighted(h: Home, score: int, timeRemaining: int, playerName: string)
    ensures HighlightName(Run(h, [Finished(score, timeRemaining, playerName), ViewedLeaderboard]))
            == Some(playerName)
  {
    var es := [Finished(score, timeRemaining, playerName), ViewedLeaderboard];
    var h1 := Apply(h, es[0]);
    assert es[1..] == [ViewedLeaderboard] && [ViewedLeaderboard][1..] == [];
    assert Run(h1, [ViewedLeaderboard]) == Apply(h1, ViewedLeaderboard);
  }

  /** The page's state, updated by its handlers. */
  class HomePage {
    var view: View
    var gameKey: nat
    var results: Option<GameResults>

    function State(): Home
      reads this
    {
      Home(view, gameKey, results)
    }

    constructor ()
      ensures State() == Initial()
    {
      view, gameKey, results := Game, 0, None;
    }

    method HandleFinish(score: int, timeRemaining: int, playerName: string)
      modifies this
      ensures State() == Apply(old(State()), Finished(score, timeRemaining, playerName))
      ensures results == Some(GameResults(score, timeRemaining, playerName)) && view == Results
      ensures gameKey == old(gameKey)
    {
      results := Some(GameResults(score, timeRemaining, playerName));
      view := Results;
    }

    method HandleRestart()
      modifies this
      ensures State() == Apply(old(State()), Restarted)
      ensures gameKey == old(gameKey) + 1 && results.None? && view == Game
    {
      gameKey := gameKey + 1;
      results := None;
      view := Game;
    }

    method HandleViewLeaderboard()
      modifies this`view
      ensures State() == Apply(old(State()), ViewedLeaderboard)
      ensures view == LeaderboardScreen
    {
      view := LeaderboardScreen;
    }

    method HandleBackToGame()
      modifies this`view
      ensures State() == Apply(old(State()), BackToGame)
      ensures view == Game
    {
      view := Game;
    }
  }
}
