/** One attempt at the quiz: the start card, the one-second countdown from 15
    minutes, the input box that adds a country as soon as the typed text
    matches one not yet guessed, and the finish guard that reports the score
    once. The country matcher and the catalog are parameters of the session.

    The transitions are first given as functions on a `Quiz` record; the class
    `QuizSession` holds the same fields as mutable state and its methods are
    proved to perform exactly those transitions. */
module QuizGame {
  import opened Common
  import ScoresRoute

  /** The countdown every attempt starts from, in seconds. */
  const TimeBudget: nat := 900

  /** The component's state: `started`, `playerName`, `input`,
      `guessedCountries`, `timeLeft` and `isFinished`. */
  datatype Quiz = Quiz(started: bool, playerName: string, input: string, guessed: set<string>,
                       timeLeft: int, isFinished: bool)

  /** What the finish handler posts and passes to its `onFinish` callback. */
  datatype FinishReport = FinishReport(playerName: string, score: nat, timeRemaining: int, total: nat)

  function Initial(): Quiz {
    Quiz(false, "", "", {}, TimeBudget, false)
  }

  /** The matcher only ever answers with names from the catalog. */
  ghost predicate MatchesCatalog(matcher: string -> Option<string>, catalog: seq<string>) {
    forall t :: matcher(t).Some? ==> matcher(t).value in catalog
  }

  /** What every reachable state satisfies. Before the start only the name
      can have changed. */
  predicate Inv(q: Quiz, catalog: seq<string>) {
    && 0 <= q.timeLeft <= TimeBudget
    && (!q.started ==> q.timeLeft == TimeBudget && q.guessed == {} && q.input == "" && !q.isFinished)
    && (q.timeLeft == 0 ==> q.isFinished)
    && (q.started ==> !IsBlank(q.playerName))
    && forall g :: g in q.guessed ==> g in catalog
  }

  // ---------------------------------------------------------------------------
  // Transitions

  /** Typing into the name field of the start card. */
  function NameStep(q: Quiz, name: string): (r: Quiz)
    ensures r.playerName == name && r.(playerName := q.playerName) == q
  {
    q.(playerName := name)
  }

  /** The start button: starts only for a name that is not blank. */
  function StartStep(q: Quiz): (r: Quiz)
    ensures r.started <==> q.started || !IsBlank(q.playerName)
    ensures r.(started := q.started) == q
  {
    if !IsBlank(q.playerName) then q.(started := true) else q
  }

  /** The countdown runs only while started, not finished and with time left. */
  predicate TimerRunning(q: Quiz) {
    q.started && q.timeLeft > 0 && !q.isFinished
  }

  /** The finish handler: the first call marks the attempt finished and reports
      the number guessed and the time left at that moment; later calls do
      nothing. */
  function FinishStep(q: Quiz, total: nat): (r: (Quiz, Option<FinishReport>))
    ensures r.0.isFinished && r.0.(isFinished := q.isFinished) == q
    ensures r.1.Some? <==> !q.isFinished
    ensures r.1.Some? ==> r.1.value.score == |q.guessed| && r.1.value.timeRemaining == q.timeLeft
                          && r.1.value.playerName == q.playerName && r.1.value.total == total
  {
    if q.isFinished then (q, None)
    else (q.(isFinished := true), Some(FinishReport(q.playerName, |q.guessed|, q.timeLeft, total)))
  }

  /** One tick of the one-second interval. At `timeLeft <= 1` the finish
      handler runs with the current `timeLeft`, then the clock is set to 0. */
  function TickStep(q: Quiz, total: nat): (r: (Quiz, Option<FinishReport>))
    ensures r.0.timeLeft <= q.timeLeft || !TimerRunning(q)
    ensures r.0.guessed == q.guessed && r.0.playerName == q.playerName && r.0.input == q.input
    ensures r.0.started == q.started
    ensures !TimerRunning(q) ==> r == (q, None)
    ensures TimerRunning(q) && q.timeLeft > 1 ==> r.0 == q.(timeLeft := q.timeLeft - 1) && r.1 == None
    ensures TimerRunning(q) && q.timeLeft <= 1 ==>
              r.0.timeLeft == 0 && r.0.isFinished && r.1.Some? && r.1.value.timeRemaining == q.timeLeft
  {
    if !TimerRunning(q) then (q, None)
    else if q.timeLeft <= 1 then
      var (f, report) := FinishStep(q, total);
      (f.(timeLeft := 0), report)
    else (q.(timeLeft := q.timeLeft - 1), None)
  }

  /** The input box. It is disabled once finished; otherwise the text is stored
      and, unless it is blank, matched: a match not yet guessed is added and the
      box is cleared, returning the new country. */
  function InputStep(q: Quiz, text: string, matcher: string -> Option<string>): (r: (Quiz, Option<string>))
    ensures q.isFinished ==> r == (q, None)
    ensures r.0.(guessed := q.guessed, input := q.input) == q
    ensures r.1.Some? <==> r.0.guessed != q.guessed
    ensures r.1.None? ==> r.0.guessed == q.guessed && r.0.input == (if q.isFinished then q.input else text)
    ensures r.1.Some? ==> && !q.isFinished && !IsBlank(text)
                          && matcher(text) == r.1 && r.1.value !in q.guessed
                          && r.0.guessed == q.guessed + {r.1.value} && r.0.input == ""
    ensures (!q.isFinished && !IsBlank(text) && matcher(text).Some? && matcher(text).value != ""
             && matcher(text).value !in q.guessed) ==> r.1 == matcher(text)
  {
    if q.isFinished then (q, None)
    else
      var typed := q.(input := text);
      if IsBlank(text) then (typed, None)
      else
        match matcher(text)
        case Some(m) =>
          if m != "" && m !in q.guessed then (typed.(guessed := q.guessed + {m}, input := ""), Some(m))
          else (typed, None)
        case None => (typed, None)
  }

  // ---------------------------------------------------------------------------
  // Properties of the transitions

  /** A set of elements taken from a sequence is no larger than the sequence. */
  lemma {:induction false} SubsetOfSeqIsSmaller(s: set<string>, catalog: seq<string>)
    requires forall g :: g in s ==> g in catalog
    ensures |s| <= |catalog|
    decreases |catalog|
  {
    if catalog != [] {
      var rest := s - {catalog[0]};
      forall g | g in rest ensures g in catalog[1..] {
        var k :| 0 <= k < |catalog| && catalog[k] == g;
        assert k != 0;
        assert catalog[1..][k - 1] == g;
      }
      SubsetOfSeqIsSmaller(rest, catalog[1..]);
    }
  }

  /** The initial state and every transition keep the invariant, each on the
      screen that offers it: the name field on the start card, the input box
      and the Give Up button once started. */
  lemma InvariantHolds(q: Quiz, catalog: seq<string>, name: string, text: string,
                       matcher: string -> Option<string>)
    requires Inv(q, catalog) && MatchesCatalog(matcher, catalog)
    ensures Inv(Initial(), catalog)
    ensures !q.started ==> Inv(NameStep(q, name), catalog)
    ensures Inv(StartStep(q), catalog)
    ensures Inv(TickStep(q, |catalog|).0, catalog)
    ensures q.started ==> Inv(InputStep(q, text, matcher).0, catalog)
    ensures q.started ==> Inv(FinishStep(q, |catalog|).0, catalog)
  {
  }

  /** The score reported never exceeds the catalog size. */
  lemma ScoreWithinTotal(q: Quiz, catalog: seq<string>)
    requires Inv(q, catalog) && !q.isFinished
    ensures FinishStep(q, |catalog|).1.value.score <= FinishStep(q, |catalog|).1.value.total
  {
    SubsetOfSeqIsSmaller(q.guessed, catalog);
  }

  /** The finish handler runs once: a second call changes nothing and reports nothing. */
  lemma FinishIsIdempotent(q: Quiz, total: nat)
    ensures FinishStep(FinishStep(q, total).0, total) == (FinishStep(q, total).0, None)
  {
  }

  /** Once finished, the clock and the guessed set are frozen. */
  lemma FrozenAfterFinish(q: Quiz, total: nat, text: string, matcher: string -> Option<string>)
    requires q.isFinished
    ensures TickStep(q, total) == (q, None)
    ensures InputStep(q, text, matcher) == (q, None)
    ensures FinishStep(q, total) == (q, None)
  {
  }

  /** Submitting the same text twice adds at most one country. */
  lemma RepeatedInputAddsOnce(q: Quiz, text: string, matcher: string -> Option<string>)
    ensures var once := InputStep(q, text, matcher).0;
            InputStep(once, text, matcher).0.guessed == once.guessed
            && |once.guessed| <= |q.guessed| + 1
  {
    var (once, added) := InputStep(q, text, matcher);
    if added.Some? {
      assert once.guessed == q.guessed + {added.value};
    }
  }

  /** `n` ticks in a row, with the reports they produced. */
  function Ticks(q: Quiz, n: nat, total: nat): (Quiz, seq<FinishReport>)
    decreases n
  {
    if n == 0 then (q, [])
    else
      var (next, report) := TickStep(q, total);
      var (last, reports) := Ticks(next, n - 1, total);
      (last, (if report.Some? then [report.value] else []) + reports)
  }

  /** From a running clock at `n` seconds, `n` ticks finish the attempt with
      the clock at 0, and exactly one report is made, carrying the value the
      clock showed when the finish handler ran (1, not 0). */
  lemma {:induction false} CountdownFinishes(q: Quiz, n: nat, total: nat)
    requires TimerRunning(q) && q.timeLeft == n
    ensures Ticks(q, n, total)
            == (q.(timeLeft := 0, isFinished := true),
                [FinishReport(q.playerName, |q.guessed|, 1, total)])
    decreases n
  {
    if n > 1 {
      var next := q.(timeLeft := n - 1);
      assert TickStep(q, total) == (next, None);
      CountdownFinishes(next, n - 1, total);
      var (last, reports) := Ticks(next, n - 1, total);
      assert [] + reports == reports;
    } else {
      var done := q.(timeLeft := 0, isFinished := true);
      var report := FinishReport(q.playerName, |q.guessed|, 1, total);
      assert TickStep(q, total) == (done, Some(report));
      assert Ticks(done, 0, total) == (done, []);
      assert [report] + [] == [report];
    }
  }

  /** A full attempt: started, 900 ticks later it is finished and reported once. */
  lemma FullCountdown(q: Quiz, total: nat)
    requires q.started && !q.isFinished && q.timeLeft == TimeBudget
    ensures Ticks(q, TimeBudget, total).0.isFinished && Ticks(q, TimeBudget, total).0.timeLeft == 0
    ensures Ticks(q, TimeBudget, total).1 == [FinishReport(q.playerName, |q.guessed|, 1, total)]
  {
    CountdownFinishes(q, TimeBudget, total);
  }

  // ---------------------------------------------------------------------------
  // The score submission

  /** The JSON body the finish handler posts to the scores route: the name,
      the score, the time left and the total, and no difficulty. */
  function Payload(report: FinishReport): (r: ScoresRoute.Json)
    ensures r.Obj? && r.fields.Keys == {"playerName", "score", "timeRemaining", "total"}
    ensures ScoresRoute.Field(r, "playerName") == ScoresRoute.Str(report.playerName)
    ensures ScoresRoute.Field(r, "score") == ScoresRoute.Number(report.score as real)
    ensures ScoresRoute.Field(r, "timeRemaining") == ScoresRoute.Number(report.timeRemaining as real)
    ensures ScoresRoute.Field(r, "total") == ScoresRoute.Number(report.total as real)
    ensures ScoresRoute.Field(r, "difficulty") == ScoresRoute.Undefined
  {
    ScoresRoute.Obj(map[
      "playerName" := ScoresRoute.Str(report.playerName),
      "score" := ScoresRoute.Number(report.score as real),
      "timeRemaining" := ScoresRoute.Number(report.timeRemaining as real),
      "total" := ScoresRoute.Number(report.total as real)])
  }

  /** The body the finish handler posts passes the route's validation when the
      name is not empty, and since no difficulty is sent the route fills in
      "average". */
  lemma PayloadAccepted(report: FinishReport)
    requires report.playerName != ""
    ensures ScoresRoute.ReadSubmission(ScoresRoute.Parsed(Payload(report)))
            == Ok(ScoresRoute.Submission(ScoresRoute.Str(report.playerName), report.score as real,
                                         report.timeRemaining as real, report.total as real,
                                         ScoresRoute.Str(ScoresRoute.DefaultDifficulty)))
  {
    var v := Payload(report);
    assert ScoresRoute.Field(v, "difficulty") == ScoresRoute.Undefined;
  }

  /** A started attempt reports a name that is not empty, the guessed count
      and the clock, so what it posts is accepted. */
  lemma StartedReportIsAccepted(q: Quiz, catalog: seq<string>)
    requires Inv(q, catalog) && q.started && !q.isFinished
    ensures var report := FinishStep(q, |catalog|).1.value;
            report.playerName != "" && report.score == |q.guessed| && report.timeRemaining == q.timeLeft
            && ScoresRoute.ReadSubmission(ScoresRoute.Parsed(Payload(report))).Ok?
  {
    assert IsBlank("");
    PayloadAccepted(FinishStep(q, |catalog|).1.value);
  }

  // ---------------------------------------------------------------------------
  // The component as mutable state

  class QuizSession {
    /** `COUNTRIES`, whose length is the reported total. */
    const catalog: seq<string>
    /** `findCountryMatch`. */
    const matcher: string -> Option<string>

    var started: bool
    var playerName: string
    var input: string
    var guessed: set<string>
    var timeLeft: int
    var isFinished: bool

    function State(): Quiz
      reads this
    {
      Quiz(started, playerName, input, guessed, timeLeft, isFinished)
    }

    ghost predicate Valid()
      reads this
    {
      MatchesCatalog(matcher, catalog) && Inv(State(), catalog)
    }

    constructor (catalog: seq<string>, matcher: string -> Option<string>)
      requires MatchesCatalog(matcher, catalog)
      ensures Valid() && State() == Initial()
      ensures this.catalog == catalog && this.matcher == matcher
    {
      this.catalog := catalog;
      this.matcher := matcher;
      started, playerName, input, guessed := false, "", "", {};
      timeLeft, isFinished := TimeBudget, false;
    }

    /** The name field, which only the start card shows. */
    method SetPlayerName(name: string)
      requires Valid() && !started
      modifies this
      ensures Valid() && State() == NameStep(old(State()), name)
    {
      playerName := name;
    }

    method Start()
      requires Valid()
      modifies this
      ensures Valid() && State() == StartStep(old(State()))
    {
      if !IsBlank(playerName) {
        started := true;
      }
    }

    /** The Give Up button, and the timer at 0; both exist only once started. */
    method Finish() returns (report: Option<FinishReport>)
      requires Valid() && started
      modifies this
      ensures Valid()
      ensures (State(), report) == FinishStep(old(State()), |catalog|)
    {
      if isFinished {
        return None;
      }
      isFinished := true;
      var score := |guessed|;
      report := Some(FinishReport(playerName, score, timeLeft, |catalog|));
    }

    method Tick() returns (report: Option<FinishReport>)
      requires Valid()
      modifies this
      ensures Valid()
      ensures (State(), report) == TickStep(old(State()), |catalog|)
    {
      report := None;
      if started && timeLeft > 0 && !isFinished {
        if timeLeft <= 1 {
          report := Finish();
          timeLeft := 0;
        } else {
          timeLeft := timeLeft - 1;
        }
      }
    }

    /** The input box, which only the running quiz shows. */
    method SubmitInput(text: string) returns (added: Option<string>)
      requires Valid() && started
      modifies this
      ensures Valid()
      ensures (State(), added) == InputStep(old(State()), text, matcher)
    {
      added := None;
      if isFinished {
        return;
      }
      input := text;
      if IsBlank(input) {
        return;
      }
      var m := matcher(input);
      if m.Some? && m.value != "" && m.value !in guessed {
        guessed := guessed + {m.value};
        input := "";
        added := m;
      }
    }
  }
}
