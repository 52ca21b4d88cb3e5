# Countries quiz — a verified model

The countries quiz is a web game. A player enters a name and starts a
15-minute countdown. They then type country names; each one recognised and
not yet named is added at once. The attempt ends when the clock runs out or
the player gives up. The score is posted to a scores API backed by a
`scores` table. A results screen ranks the attempt, and a leaderboard lists
the best scores, filtered to today, this week or all time.

This project models the logic of the seven files that make up that core, one
Dafny module per file.

- `QuizGame` (`quiz_game.dfy`) models `components/quiz-game.tsx`.
  - The six state fields and one transition function per handler.
  - A class `QuizSession` holds the fields as mutable state. Its methods are
    proved to perform exactly those transitions, keeping the invariant.
- `DbClient` (`db_client.dfy`) models `lib/db/client.ts`.
  - The cached pool, the insert, and the leaderboard query.
  - The query's `ORDER BY score DESC, time_remaining DESC, created_at ASC
    LIMIT n` is the first `n` rows of an insertion sort of the stored table.
  Rows that tie on all three keys keep their storage order; PostgreSQL leaves
  that order open, and the lemmas about the listing hold for any order of
  such ties.
- `ScoresRoute` (`scores_route.dfy`) models `app/api/scores/route.ts`.
  - POST validation, the default difficulty, the status mapping, and the
    GET limit.
  - These are pure functions of the parsed body and of what the awaited
    calls returned.
- `Leaderboard` (`leaderboard.dfy`) models `components/leaderboard.tsx`: the
  fetch with its time-window filters, the rank icon, the clock, the relative date and
  the highlight rule.
- `ResultsScreen` (`results_screen.dfy`) models `components/results-screen.tsx`:
  the time taken, the rank
  ladder, the stats clock and the share text.
- `ContinentTables` (`continent_tables.dfy`) models
  `components/continent-tables.tsx`: the per-continent tally,
  the fixed continent order and the rule for which rows are shown.
- `Page` (`page.dfy`) models the top-level view machine of `app/page.tsx`:
  the view, the key that remounts the quiz, and the stored results.
- `Common` (`common.dfy`) holds the JavaScript operations the components use:
  - `trim()`, `String(n)` and `padStart(2, "0")`;
  - `parseInt(s, 10)`;
  - `Math.floor` of a quotient and the truncating `%`.

### External code taken as parameters

The country catalog (`COUNTRIES`), the name matcher (`findCountryMatch`) and
the continent lookup (`getCountriesByContinent`) live in `lib/countries`,
which is not part of this model. The model takes them as parameters:

- the catalog is a `seq<string>`;
- the matcher is a function `string -> Option<string>`, and the invariant
  needs only that it answers with catalog names;
- the continent lookup is a function `Continent -> seq<string>`.

The clock, the database and the network are also parameters:

- The current instant and local midnight are integer milliseconds.
- The database's answer to an insert or a query is an outcome value passed
  in.
- What an awaited call did — returned a value or threw — is an `Awaited`
  value.

### Behaviour as the code has it

- The quiz sends no difficulty, so the route's default "average" applies.
  The time budget is the constant 900 seconds in both the quiz and the
  results screen.
- When the clock expires, the tick's updater calls the finish handler before
  it sets the clock to 0. The handler therefore reports the `timeLeft` it
  sees, which is 1, not 0. `QuizGame.CountdownFinishes` proves that a full
  countdown makes exactly one report and that it carries 1.
- The route passes `difficulty` on to `saveScore`, whose declaration has
  only four parameters. The difficulty is therefore never stored. The model
  carries it in the validated submission but does not persist it.
- The "today" and "this week" filters run in the browser, on the at most
  100 rows the server returned. They do not filter the whole table.
- Leaving the leaderboard makes the game view mount the quiz again, so
  "back" after a finished attempt shows a fresh start card under the same
  key.

## Model

| member | source | states |
|---|---|---|
| `Common.BlankIffAllWhitespace` | components/quiz-game.tsx:56 | a name fails `trim()` exactly when every character is whitespace |
| `Common.MinutesSeconds` | components/leaderboard.tsx:74-75 | for a non-negative count, minutes·60 + seconds gives it back with seconds < 60; a negative count gives a negative minute and a non-positive remainder, as JavaScript's `%` does |
| `Common.ClockRoundTrip` | components/quiz-game.tsx:99-103 | `FormatClock`, the `formatTime` that the game clock, the leaderboard's time-left column (components/leaderboard.tsx:73-77) and the results screen's Time Taken card share, renders a non-negative time with two second digits, and reading it back gives the same number of seconds |
| `Common.ParseIntRoundTrip` | app/api/scores/route.ts:28 | `parseInt` reads back a decimal rendering followed by any text that does not start with a digit |
| `Common.IntParseRoundTrip` | components/leaderboard.tsx:87 | `parseInt` reads back any integer's rendering, a leading minus included, whatever non-digit text follows |
| `Common.ReadIntRoundTrip` | components/results-screen.tsx:35 | an integer written by `${n}` and followed by non-digit text is read back as that integer, leaving the text after it untouched |
| `Common.NatToStringRoundTrip` | components/leaderboard.tsx:70 | the decimal rendering of a number denotes that number |
| `Common.DecimalPrefixInjective` | components/results-screen.tsx:35 | a decimal rendering followed by non-digit text splits back uniquely into the number and the text |
| `QuizGame.StartStep` | components/quiz-game.tsx:55-60 | start sets `started` exactly when the name is not blank, and changes nothing else |
| `QuizGame.NameStep` | components/quiz-game.tsx:118-121 | the name field replaces the name and changes nothing else |
| `QuizGame.TickStep` | components/quiz-game.tsx:26-39 | it only ticks while started, not finished and with time left; above 1 it takes exactly one second off; at 1 or below it finishes, reports the clock as it was, and sets it to 0; the clock never goes up |
| `QuizGame.InputStep` | components/quiz-game.tsx:41-53 | the input effect: a finished quiz ignores input; blank text is stored but not matched; a non-empty match not yet guessed is added and clears the box; anything else leaves the guessed set and keeps the text |
| `QuizGame.FinishStep` | components/quiz-game.tsx:62-97 | the first call marks the quiz finished and reports the guessed count, the clock at entry, the name and the catalog size; a call on a finished quiz reports nothing and changes nothing |
| `QuizGame.InvariantHolds` | components/quiz-game.tsx:17-22 | the initial state and every transition offered on its screen keep the invariant: before the start the clock is at 900, nothing is guessed, the box is empty and the quiz is not finished; the clock stays in 0..900 and is finished at 0; a started quiz has a non-blank name; guessed names come from the catalog |
| `QuizGame.ScoreWithinTotal` | components/quiz-game.tsx:66-80 | the reported score never exceeds the reported total |
| `QuizGame.FinishIsIdempotent` | components/quiz-game.tsx:63-64 | a second finish changes nothing and reports nothing |
| `QuizGame.FrozenAfterFinish` | components/quiz-game.tsx:27-42 | once finished, ticks, input and finish all leave the state as it is |
| `QuizGame.RepeatedInputAddsOnce` | components/quiz-game.tsx:46-48 | one input adds at most one country, and the same text again adds none |
| `QuizGame.CountdownFinishes` | components/quiz-game.tsx:29-35 | n ticks from a running clock at n finish the quiz with the clock at 0 and exactly one report, whose time left is 1 |
| `QuizGame.FullCountdown` | components/quiz-game.tsx:21-35 | 900 ticks after the start the attempt is finished and reported once |
| `QuizGame.Payload` | components/quiz-game.tsx:76-81 | the posted body has exactly the fields `playerName`, `score`, `timeRemaining` and `total`, carrying the report's values, and no `difficulty` |
| `QuizGame.PayloadAccepted` | components/quiz-game.tsx:76-81 | the body the finish handler posts, with a non-empty name, passes the route's validation with its fields unchanged, and the route fills in difficulty "average" |
| `QuizGame.StartedReportIsAccepted` | components/quiz-game.tsx:66-81 | a started attempt reports a non-empty name, the guessed count and the clock, and the route accepts what it posts |
| `QuizGame.QuizSession.constructor` | components/quiz-game.tsx:17-22 | a new session is the initial state and satisfies the invariant |
| `QuizGame.QuizSession.SetPlayerName` | components/quiz-game.tsx:121 | typing on the start card replaces the name and nothing else |
| `QuizGame.QuizSession.Start` | components/quiz-game.tsx:55-60 | performs the start transition and keeps the invariant |
| `QuizGame.QuizSession.Finish` | components/quiz-game.tsx:62-97 | performs the finish transition and returns its report; it is called only once started, by the Give Up button or the timer |
| `QuizGame.QuizSession.Tick` | components/quiz-game.tsx:28-35 | performs the tick transition, calling the finish handler before it zeroes the clock |
| `QuizGame.QuizSession.SubmitInput` | components/quiz-game.tsx:41-53 | performs the input transition and returns the country added, if any; the input box exists only once started |
| `DbClient.RankingIsTotalOrderOnKeys` | lib/db/client.ts:65 | the three-key order is reflexive, total and transitive, and two rows tie exactly when all three keys agree |
| `DbClient.SortRanked` | lib/db/client.ts:65 | the sorted rows are in leaderboard order and are a permutation of the table |
| `DbClient.TopRows` | lib/db/client.ts:65-66 | the result has min(limit, table size) rows, in leaderboard order and taken from the table, and no row left out ranks above a row kept |
| `DbClient.RankedListingsAgreeOnKeys` | lib/db/client.ts:65 | any two ranked listings of the same rows agree position by position on score, time left and creation time |
| `DbClient.RankingExample` | lib/db/client.ts:65 | at equal scores the row with more time left is listed first |
| `DbClient.ScoreFirstExample` | lib/db/client.ts:65-66 | a higher score beats any amount of time left, and the limit keeps only the top rows |
| `DbClient.Database.constructor` | lib/db/client.ts:3 | the pool cache starts empty |
| `DbClient.Database.GetPool` | lib/db/client.ts:5-21 | a cached pool is always returned unchanged; without a connection string it returns none and caches nothing; otherwise it creates and caches the pool |
| `DbClient.Database.SaveScore` | lib/db/client.ts:23-45 | the pool is the cached one, or else one created from a set connection string, or none; without a pool it fails with "Database not configured" and inserts nothing; an insert error is passed on and inserts nothing; a success appends exactly the new row and returns its id and timestamp |
| `DbClient.Database.GetLeaderboard` | lib/db/client.ts:47-75 | the pool is the cached one, or else one created from a set connection string, or none; without a pool it succeeds with no rows; a query error fails; otherwise it returns the top `limit` rows |
| `DbClient.FirstUseOfConfiguredDatabase` | lib/db/client.ts:5-75 | a fresh database with a connection string saves a row on first use, and the next listing is the top 100 of the table with that row |
| `ScoresRoute.ReadSubmission` | app/api/scores/route.ts:4-12 | an unparsable, null or undefined body gives 500 "Internal server error"; otherwise the body is accepted exactly when the name is truthy and the three counts are numbers, else 400 "Invalid request data"; an accepted body passes its fields on, with difficulty "average" when absent or falsy |
| `ScoresRoute.Post` | app/api/scores/route.ts:4-23 | status 400 exactly for an invalid body, 200 exactly when the save succeeds (with the new id and timestamp), and 500 with the save's error or "Internal server error" otherwise |
| `ScoresRoute.ValidationChecksTypesOnly` | app/api/scores/route.ts:8-10 | a whitespace name and negative, fractional counts pass; an empty name or a string score is refused |
| `ScoresRoute.RequestedLimit` | app/api/scores/route.ts:28 | an absent or empty parameter means 100; any other is read by `parseInt` |
| `ScoresRoute.RequestedLimitReadsDecimal` | app/api/scores/route.ts:28 | a limit written in decimal is read as that number |
| `ScoresRoute.Get` | app/api/scores/route.ts:25-41 | 200 with the rows exactly when the query listed them; otherwise 500 with the error (the query's, or "Internal server error" when it threw) and an empty row list |
| `Leaderboard.KeepSince` | components/leaderboard.tsx:43-51 | the kept rows are an order-preserving subsequence holding exactly the rows created at or after the cutoff, each as often as in the input |
| `Leaderboard.KeepSinceKeepsRanking` | components/leaderboard.tsx:46-50 | filtering a ranked list leaves it ranked |
| `Leaderboard.Filtered` | components/leaderboard.tsx:40-51 | "all" keeps every row, "today" is `KeepSince` local midnight and "week" is `KeepSince` seven days ago, so each keeps, in order and with their multiplicity, exactly the rows created since its cutoff |
| `Leaderboard.FilteredKeepsRanking` | components/leaderboard.tsx:40-53 | every window keeps the server's leaderboard order |
| `Leaderboard.TodayWindow` | components/leaderboard.tsx:43-50 | with local midnight less than 25 hours back, "today" drops every row 25 hours or more old, and every row a day old when midnight is less than a day back, and keeps nothing that "week" drops |
| `Leaderboard.ShownScores` | components/leaderboard.tsx:32-58 | a thrown fetch, a non-ok response or an unsuccessful body shows no rows; otherwise the filtered data, with missing data read as none |
| `Leaderboard.LeaderboardView.constructor` | components/leaderboard.tsx:25-27 | no rows, loading, and the "all" filter at first |
| `Leaderboard.LeaderboardView.FetchScores` | components/leaderboard.tsx:29-60 | afterwards loading is over and the rows are the shown scores for the current filter |
| `Leaderboard.LeaderboardView.SelectFilter` | components/leaderboard.tsx:62-64 | a different tab stores its filter and fetches again under it; the tab already selected changes nothing, since the fetch runs only when the filter changes |
| `Leaderboard.GetRankIcon` | components/leaderboard.tsx:66-71 | places 0, 1 and 2 get trophy, medal and award, and every later place shows `#` and its 1-based number |
| `Leaderboard.RankIconsDistinct` | components/leaderboard.tsx:66-71 | different places never show the same icon |
| `Leaderboard.FormatDate` | components/leaderboard.tsx:79-91 | minutes under an hour, hours under a day, days under a week, the date itself beyond; each amount is the whole number of units elapsed |
| `Leaderboard.DateText` | components/leaderboard.tsx:87-89 | a relative date renders as its amount followed by "m ago", "h ago" or "d ago", and the leading number reads back as the amount; an absolute date has no text here |
| `Leaderboard.Suffix` | components/leaderboard.tsx:87-89 | each unit has its own suffix, "m ago", "h ago" or "d ago", none starting with a digit |
| `Leaderboard.RelativeDateText` | components/leaderboard.tsx:79-90 | an entry under an hour old reads "Nm ago" with N its whole minutes, under a day "Nh ago" with its whole hours, under a week "Nd ago" with its whole days |
| `Leaderboard.HighlightsExactlyThePlayer` | components/leaderboard.tsx:182 | a row is highlighted exactly when a non-empty name was passed and equals its player name |
| `ResultsScreen.TimeTaken` | components/results-screen.tsx:21 | the time taken and the time left add up to 900, and both lie in 0..900 |
| `ResultsScreen.TakenMinutesSeconds` | components/results-screen.tsx:21-23 | minutes·60 + seconds is the time taken, with seconds below 60 and at most 15 minutes |
| `ResultsScreen.GetRank` | components/results-screen.tsx:25-32 | a perfect score (all countries) wins before any threshold; otherwise the rank is the highest whose threshold (90, 75, 50, 25) the percentage reaches, and Beginner below 25 |
| `ResultsScreen.RankTitle` | components/results-screen.tsx:26-31 | every heading is non-empty, and only the perfect score's ends with an exclamation mark |
| `ResultsScreen.RankTitlesDistinct` | components/results-screen.tsx:26-31 | each rank has its own heading |
| `ResultsScreen.RankIsMonotone` | components/results-screen.tsx:27-31 | a higher percentage never gives a lower rank |
| `ResultsScreen.RankThresholds` | components/results-screen.tsx:26-31 | each threshold is inclusive, and a perfect score wins even at 0 percent |
| `ResultsScreen.ShareText` | components/results-screen.tsx:35 | the text opens with "I named ", its leading number is the score, and it ends with the challenge line |
| `ResultsScreen.ShareTextReadsBack` | components/results-screen.tsx:35 | reading the share text back, label by label, gives exactly the score, the total, the percentage, the minutes and the seconds it was built from |
| `ResultsScreen.ShareTextInjective` | components/results-screen.tsx:35 | two attempts with the same share text agree on score, total, percentage, minutes and seconds |
| `ResultsScreen.Screen` | components/results-screen.tsx:20-83 | the heading is the title of the rank `GetRank` gives, so "Perfect Score!" exactly for a perfect score; the Completion card shows the percentage; the Time Taken clock reads back as the time taken; the share text reads back as the score, the total, the percentage and a minutes/seconds split (seconds below 60) of that same time taken |
| `ContinentTables.OrderListsEachContinentOnce` | components/continent-tables.tsx:15-22 | the six continents each appear in the table order, and only once |
| `ContinentTables.GuessedIn` | components/continent-tables.tsx:26 | the continent's guessed countries, in its order, and exactly those |
| `ContinentTables.ContinentStats` | components/continent-tables.tsx:24-28 | the badge's total is the continent's size, and its guessed count is at most that and 0 exactly when none is guessed |
| `ContinentTables.GuessedCountIsIntersection` | components/continent-tables.tsx:24-28 | with each country listed once, the guessed count is the size of the continent's set intersected with the guessed set |
| `ContinentTables.ShownRows` | components/continent-tables.tsx:46-61 | a row has a check exactly when its country is guessed, and there are no more rows than countries |
| `ContinentTables.ShownIffFinishedOrGuessed` | components/continent-tables.tsx:47-50 | a country has a row exactly when the game is finished or the country is guessed |
| `ContinentTables.RunningTableShowsGuessed` | components/continent-tables.tsx:46-50 | before the finish the rows list exactly the guessed countries, in the continent's order |
| `ContinentTables.FinishedTableShowsAll` | components/continent-tables.tsx:46-50 | after the finish every country has a row, in order |
| `ContinentTables.ChecksMatchBadge` | components/continent-tables.tsx:41-61 | the checks in a table add up to the badge's guessed count |
| `ContinentTables.Tables` | components/continent-tables.tsx:30-69 | six tables in the fixed order, each with its continent's name as heading, its continent's tally as badge and its continent's shown rows, so that the checks add up to the badge |
| `Page.Initial` | app/page.tsx:13-19 | the page starts on the game view with key 0 and no results |
| `Page.Apply` | app/page.tsx:21-38 | finishing stores the results and shows them; "Play Again" adds exactly 1 to the key, clears the results and shows the game; the leaderboard button changes only the view; "back" shows the game with the same key and results; each keeps the invariant |
| `Page.RunKeepsInv` | app/page.tsx:21-38 | after any sequence of handlers the results view has results to show |
| `Page.KeyCountsRestarts` | app/page.tsx:26-30 | after any sequence of handlers the key has grown by exactly the number of restarts |
| `Page.LeaderboardRoundTrip` | app/page.tsx:32-38 | going to the leaderboard and back keeps the key and the results |
| `Page.MountedGame` | app/page.tsx:66 | the quiz is mounted exactly on the game view, under the current key |
| `Page.ShownResults` | app/page.tsx:68-76 | the results screen renders only on the results view with results, and always there in a reachable state |
| `Page.HighlightName` | app/page.tsx:78 | the leaderboard highlights the stored results' player, or no one |
| `Page.OneScreenAtATime` | app/page.tsx:55-78 | in a reachable state exactly one screen renders, and the header button shows exactly when the leaderboard does not |
| `Page.FinishedPlayerIsHighlighted` | app/page.tsx:21-34 | after finishing and opening the leaderboard, the player just finished is highlighted |
| `Page.HomePage.constructor` | app/page.tsx:13-19 | the page's state starts as the initial state |
| `Page.HomePage.HandleFinish` | app/page.tsx:21-24 | stores the results and shows them, keeping the key |
| `Page.HomePage.HandleRestart` | app/page.tsx:26-30 | adds 1 to the key, clears the results and shows the game |
| `Page.HomePage.HandleViewLeaderboard` | app/page.tsx:32-34 | changes only the view |
| `Page.HomePage.HandleBackToGame` | app/page.tsx:36-38 | changes only the view, back to the game |

## Left out

- `lib/countries` is not part of this model. It holds the catalog, the name matching with its aliases and normalisation, and the continent lists. They appear only as parameters.
- `components/world-map.tsx` and `scripts/test-svg-mapping.ts` are rendering and a diagnostic script that reads files. They hold no logic of the core.
- The network, `pg` and `NextResponse` are not modelled. Their results are parameters:
  - the fetches in the leaderboard and the finish handler;
  - the `pg` pool and its SQL;
  - `request.json()`, `NextResponse` and the JSON encoding of responses.
- Logging is not modelled, and neither is the SSL option of the pool.
- QuizGame.FinishStep: the result of posting the score is not modelled. The handler only logs it, and `onFinish` runs either way.
- Percentages are not computed. `Math.round((score / total) * 100)` is floating point, so the results screen takes the percentage as an integer input. The leaderboard's percentage column is not modelled.
- Dates are integer milliseconds:
  - `toLocaleDateString` has no text here;
  - `new Date(created_at)` parsing is not modelled;
  - `setDate` across a daylight-saving change is taken as exactly seven days;
  - local midnight is a parameter.
- Browser behaviour is not modelled:
  - timer scheduling (`setInterval`, `setTimeout`);
  - the feedback banner and its auto-dismiss;
  - focus handling;
  - `navigator.share`, the clipboard, and the "Copied!" flag;
  - styling and all markup.
- React's batching and stale closures are not modelled, beyond the timer-expiry ordering described above.
- Leaderboard.LeaderboardView.FetchScores: each fetch completes before the next action. Overlapping fetches are not modelled; in the component a slower earlier response can overwrite a later tab's rows and end `loading` early.
- QuizGame.QuizSession.SetPlayerName: requires a quiz that has not started, because the name field exists only on the start card.
- QuizGame.QuizSession.SubmitInput and QuizGame.QuizSession.Finish: require a started quiz, because the input box and the Give Up button exist only once started; the transition functions themselves take any state, as the handlers do.
- DbClient.Database.GetLeaderboard: takes a natural-number limit. `parseInt` can yield NaN or a negative number, and PostgreSQL rejects those as errors; the model passes such a case as a query error instead of deriving it.
- DbClient.Database.SaveScore: the returned row is the `id` and `created_at` the database chose, taken as a parameter.
- Common.FormatClock: the integer rendering agrees with JavaScript's `toString` only for integers. Non-integer or huge numbers, which print in exponent form, are not modelled.
