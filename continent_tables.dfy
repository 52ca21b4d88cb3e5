/** The per-continent tables under the quiz: for each continent, in a fixed
    order, the count of its countries guessed so far and the rows shown. The
    country lists come from a lookup that is a parameter here. */
module ContinentTables {
  import opened Common

  datatype Continent = Europe | Asia | Africa | NorthAmerica | SouthAmerica | Oceania

  /** The heading of a continent's table. */
  function ContinentName(c: Continent): string {
    match c
    case Europe => "Europe"
    case Asia => "Asia"
    case Africa => "Africa"
    case NorthAmerica => "North America"
    case SouthAmerica => "South America"
    case Oceania => "Oceania"
  }

  /** The order the tables are laid out in. */
  const ContinentOrder: seq<Continent> := [Europe, Asia, Africa, NorthAmerica, SouthAmerica, Oceania]

  /** Each continent has its own table, and only one. */
  lemma OrderListsEachContinentOnce(c: Continent)
    ensures exists i :: 0 <= i < |ContinentOrder| && ContinentOrder[i] == c
    ensures forall i, j :: 0 <= i < j < |ContinentOrder| ==> ContinentOrder[i] != ContinentOrder[j]
  {
    match c
    case Europe => assert ContinentOrder[0] == c;
    case Asia => assert ContinentOrder[1] == c;
    case Africa => assert ContinentOrder[2] == c;
    case NorthAmerica => assert ContinentOrder[3] == c;
    case SouthAmerica => assert ContinentOrder[4] == c;
    case Oceania => assert ContinentOrder[5] == c;
  }

  // ---------------------------------------------------------------------------
  // The tally

  /** `countries.filter((c) => guessed.has(c))`. */
  function GuessedIn(countries: seq<string>, guessed: set<string>): (r: seq<string>)
    ensures SubsequenceOf(r, countries)
    ensures forall c :: c in r <==> c in countries && c in guessed
    ensures |r| <= |countries|
  {
    if countries == [] then []
    else if countries[0] in guessed then
      var tail := GuessedIn(countries[1..], guessed);
      assert ([countries[0]] + tail)[1..] == tail;
      [countries[0]] + tail
    else
      GuessedIn(countries[1..], guessed)
  }

  datatype Stats = Stats(total: nat, guessed: nat)

  /** The "guessed/total" badge of a continent's table. */
  function ContinentStats(countries: seq<string>, guessed: set<string>): (r: Stats)
    ensures r.total == |countries|
    ensures r.guessed <= r.total
    ensures r.guessed == 0 <==> forall c :: c in countries ==> c !in guessed
  {
    var g := GuessedIn(countries, guessed);
    assert g != [] ==> g[0] in g;
    Stats(|countries|, |g|)
  }

  /** The elements of a sequence. */
  function Elements(s: seq<string>): set<string> {
    set c | c in s
  }

  predicate Distinct(s: seq<string>) {
    forall i, j :: 0 <= i < j < |s| ==> s[i] != s[j]
  }

  /** With a continent's countries listed once each, the guessed count is the
      number of its countries in the guessed set. */
  lemma GuessedCountIsIntersection(countries: seq<string>, guessed: set<string>)
    requires Distinct(countries)
    ensures ContinentStats(countries, guessed).guessed == |Elements(countries) * guessed|
  {
    GuessedInCount(countries, guessed);
  }

  lemma {:induction false} GuessedInCount(countries: seq<string>, guessed: set<string>)
    requires Distinct(countries)
    ensures |GuessedIn(countries, guessed)| == |Elements(countries) * guessed|
    decreases |countries|
  {
    if countries != [] {
      var h, t := countries[0], countries[1..];
      var x := Elements(t) * guessed;
      DistinctTail(countries);
      GuessedInCount(t, guessed);
      ElementsCons(countries);
      if h in guessed {
        assert h !in x;
        assert Elements(countries) * guessed == x + {h};
        assert |x + {h}| == |x| + 1;
      } else {
        assert Elements(countries) * guessed == x;
      }
    }
  }

  lemma DistinctTail(s: seq<string>)
    requires Distinct(s) && s != []
    ensures Distinct(s[1..]) && s[0] !in s[1..]
  {
    var t := s[1..];
    forall i, j | 0 <= i < j < |t| ensures t[i] != t[j] {
      assert t[i] == s[i + 1] && t[j] == s[j + 1];
    }
  }

  lemma ElementsCons(s: seq<string>)
    requires s != []
    ensures Elements(s) == {s[0]} + Elements(s[1..])
  {
    assert s == [s[0]] + s[1..];
  }

  // ---------------------------------------------------------------------------
  // The rows

  datatype Mark = Check | Cross

  datatype ShownRow = ShownRow(country: string, mark: Mark)

  /** The rows of a table: a country is shown once the game is over or once
      it is guessed, with a check when guessed and a cross otherwise. */
  function ShownRows(countries: seq<string>, guessed: set<string>, isFinished: bool): (r: seq<ShownRow>)
    ensures |r| <= |countries|
    ensures forall i :: 0 <= i < |r| ==> (r[i].mark == Check <==> r[i].country in guessed)
  {
    if countries == [] then []
    else
      var c := countries[0];
      var tail := ShownRows(countries[1..], guessed, isFinished);
      var shouldShow := isFinished || c in guessed;
      if shouldShow then
        var row := ShownRow(c, if c in guessed then Check else Cross);
        assert forall i :: 0 <= i < |tail| ==> ([row] + tail)[i + 1] == tail[i];
        [row] + tail
      else tail
  }

  function Countries(rows: seq<ShownRow>): (r: seq<string>)
    ensures |r| == |rows|
    ensures forall i :: 0 <= i < |rows| ==> r[i] == rows[i].country
  {
    if rows == [] then [] else [rows[0].country] + Countries(rows[1..])
  }

  /** A country has a row exactly when the game is over or it is guessed. */
  lemma {:induction false} ShownIffFinishedOrGuessed(countries: seq<string>, guessed: set<string>, isFinished: bool, c: string)
    ensures c in Countries(ShownRows(countries, guessed, isFinished)) <==> c in countries && (isFinished || c in guessed)
    decreases |countries|
  {
    if countries != [] {
      ShownIffFinishedOrGuessed(countries[1..], guessed, isFinished, c);
      var h := countries[0];
      var tail := ShownRows(countries[1..], guessed, isFinished);
      assert c in countries <==> c == h || c in countries[1..] by {
        assert countries == [h] + countries[1..];
      }
      if isFinished || h in guessed {
        var row := ShownRow(h, if h in guessed then Check else Cross);
        assert Countries([row] + tail) == [h] + Countries(tail);
      }
    }
  }

  /** The number of rows marked with a check. */
  function CheckCount(rows: seq<ShownRow>): (n: nat)
    ensures n <= |rows|
  {
    if rows == [] then 0 else (if rows[0].mark == Check then 1 else 0) + CheckCount(rows[1..])
  }

  /** While the game runs, a table lists exactly the guessed countries of its
      continent, in the continent's order. */
  lemma {:induction false} RunningTableShowsGuessed(countries: seq<string>, guessed: set<string>)
    ensures Countries(ShownRows(countries, guessed, false)) == GuessedIn(countries, guessed)
    decreases |countries|
  {
    if countries != [] {
      RunningTableShowsGuessed(countries[1..], guessed);
      var tail := ShownRows(countries[1..], guessed, false);
      if countries[0] in guessed {
        var row := ShownRow(countries[0], Check);
        assert ([row] + tail)[1..] == tail;
      }
    }
  }

  /** Once the game is over every country of the continent has a row. */
  lemma {:induction false} FinishedTableShowsAll(countries: seq<string>, guessed: set<string>)
    ensures Countries(ShownRows(countries, guessed, true)) == countries
    decreases |countries|
  {
    if countries != [] {
      FinishedTableShowsAll(countries[1..], guessed);
      var tail := ShownRows(countries[1..], guessed, true);
      var row := ShownRow(countries[0], if countries[0] in guessed then Check else Cross);
      assert ([row] + tail)[1..] == tail;
    }
  }

  /** The checks in a table, finished or not, add up to the badge's guessed count. */
  lemma {:induction false} ChecksMatchBadge(countries: seq<string>, guessed: set<string>, isFinished: bool)
    ensures CheckCount(ShownRows(countries, guessed, isFinished)) == ContinentStats(countries, guessed).guessed
    decreases |countries|
  {
    if countries != [] {
      ChecksMatchBadge(countries[1..], guessed, isFinished);
      var tail := ShownRows(countries[1..], guessed, isFinished);
      if isFinished || countries[0] in guessed {
        var row := ShownRow(countries[0], if countries[0] in guessed then Check else Cross);
        assert ([row] + tail)[1..] == tail;
      }
    }
  }

  // ---------------------------------------------------------------------------
  // All tables

  lemma AllBadgesMatch(continents: Continent -> seq<string>, guessed: set<string>, isFinished: bool)
    ensures forall c :: CheckCount(ShownRows(continents(c), guessed, isFinished))
                        == ContinentStats(continents(c), guessed).guessed
  {
    forall c {
      ChecksMatchBadge(continents(c), guessed, isFinished);
    }
  }

  datatype Table = Table(continent: Continent, heading: string, stats: Stats, rows: seq<ShownRow>)

  /** The six tables, in the fixed continent order. */
  function Tables(continents: Continent -> seq<string>, guessed: set<string>, isFinished: bool): (r: seq<Table>)
    ensures |r| == |ContinentOrder|
    ensures forall i :: 0 <= i < |r| ==> r[i].continent == ContinentOrder[i]
    ensures forall i :: 0 <= i < |r| ==> r[i].stats.total == |continents(ContinentOrder[i])|
    ensures forall i :: 0 <= i < |r| ==> CheckCount(r[i].rows) == r[i].stats.guessed
    ensures forall i :: 0 <= i < |r| ==>
              && r[i].heading == ContinentName(ContinentOrder[i])
              && r[i].stats == ContinentStats(continents(ContinentOrder[i]), guessed)
              && r[i].rows == ShownRows(continents(ContinentOrder[i]), guessed, isFinished)
  {
    AllBadgesMatch(continents, guessed, isFinished);
    seq(|ContinentOrder|, i requires 0 <= i < |ContinentOrder| =>
      var countries := continents(ContinentOrder[i]);
      Table(ContinentOrder[i], ContinentName(ContinentOrder[i]), ContinentStats(countries, guessed), ShownRows(countries, guessed, isFinished)))
  }
}
