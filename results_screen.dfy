/** The results screen: the time the player took, their rank on the
    percentage ladder, the stats clock and the text they can share. The
    percentage is taken as an integer input (it is a rounded floating-point
    quotient in the component). */
module ResultsScreen {
  import opened Common
  import QuizGame

  /** The seconds used out of the fixed budget. */
  function TimeTaken(timeRemaining: int): (r: int)
    ensures 0 <= timeRemaining <= QuizGame.TimeBudget ==> 0 <= r <= QuizGame.TimeBudget
    ensures r + timeRemaining == QuizGame.TimeBudget
  {
    QuizGame.TimeBudget - timeRemaining
  }

  /** `Math.floor(timeTaken / 60)` and `timeTaken % 60`: whole minutes and the
      seconds left over, which add back up to the time taken. */
  function TakenMinutesSeconds(timeRemaining: int): (r: (int, int))
    requires 0 <= timeRemaining <= QuizGame.TimeBudget
    ensures r.0 * 60 + r.1 == TimeTaken(timeRemaining)
    ensures 0 <= r.0 <= 15 && 0 <= r.1 < 60
  {
    MinutesSeconds(TimeTaken(timeRemaining))
  }

  // ---------------------------------------------------------------------------
  // The rank ladder

  datatype Rank = Beginner | Explorer | GlobeTrotter | WorldTraveler | GeographyExpert | PerfectScore

  /** The position of a rank on the ladder, lowest first. */
  function Tier(r: Rank): (t: nat)
    ensures t <= 5
  {
    match r
    case Beginner => 0
    case Explorer => 1
    case GlobeTrotter => 2
    case WorldTraveler => 3
    case GeographyExpert => 4
    case PerfectScore => 5
  }

  /** The least percentage that earns a rank below the perfect score. */
  function MinPercentage(r: Rank): int
    requires r != PerfectScore
  {
    match r
    case Beginner => 0
    case Explorer => 25
    case GlobeTrotter => 50
    case WorldTraveler => 75
    case GeographyExpert => 90
  }

  /** Naming every country wins outright, before any threshold is looked at;
      otherwise the rank is the highest one whose threshold the percentage
      reaches, and Beginner when it reaches none. */
  function GetRank(score: nat, total: nat, percentage: int): (r: Rank)
    ensures r == PerfectScore <==> score == total
    ensures r != PerfectScore && r != Beginner ==> MinPercentage(r) <= percentage
    ensures r != PerfectScore ==>
              forall t: Rank :: t != PerfectScore && Tier(r) < Tier(t) ==> percentage < MinPercentage(t)
  {
    if score == total then PerfectScore
    else if percentage >= 90 then GeographyExpert
    else if percentage >= 75 then WorldTraveler
    else if percentage >= 50 then GlobeTrotter
    else if percentage >= 25 then Explorer
    else Beginner
  }

  /** The heading the screen shows for a rank; only the perfect score has an
      exclamation mark. */
  function RankTitle(rank: Rank): (r: string)
    ensures r != []
    ensures r[|r| - 1] == '!' <==> rank == PerfectScore
  {
    match rank
    case Beginner => "Beginner"
    case Explorer => "Explorer"
    case GlobeTrotter => "Globe Trotter"
    case WorldTraveler => "World Traveler"
    case GeographyExpert => "Geography Expert"
    case PerfectScore => "Perfect Score!"
  }

  /** Different ranks have different headings. */
  lemma RankTitlesDistinct(a: Rank, b: Rank)
    requires RankTitle(a) == RankTitle(b)
    ensures a == b
  {
  }

  /** A higher percentage never gives a lower rank, provided a perfect score
      stays perfect. */
  lemma RankIsMonotone(score1: nat, total1: nat, p1: int, score2: nat, total2: nat, p2: int)
    requires p1 <= p2
    requires score1 == total1 ==> score2 == total2
    ensures Tier(GetRank(score1, total1, p1)) <= Tier(GetRank(score2, total2, p2))
  {
  }

  /** The boundaries of the ladder, each threshold inclusive. */
  lemma RankThresholds(total: nat)
    requires total > 0
    ensures GetRank(total, total, 0) == PerfectScore
    ensures GetRank(0, total, 100) == GeographyExpert
    ensures GetRank(0, total, 90) == GeographyExpert && GetRank(0, total, 89) == WorldTraveler
    ensures GetRank(0, total, 75) == WorldTraveler && GetRank(0, total, 74) == GlobeTrotter
    ensures GetRank(0, total, 50) == GlobeTrotter && GetRank(0, total, 49) == Explorer
    ensures GetRank(0, total, 25) == Explorer && GetRank(0, total, 24) == Beginner
  {
  }

  // ---------------------------------------------------------------------------
  // The share text

  const ShareClosing: string := "s!\n\nCan you beat my score?"

  /** "I named S/T countries (P%) in Mm Ss!" followed by the challenge line. */
  function ShareText(score: nat, total: nat, percentage: int, minutes: int, seconds: int): (r: string)
    ensures |r| >= 8 && r[..8] == "I named "
    ensures ParseInt(r[8..]) == Some(score)
    ensures EndsWith(r, ShareClosing)
  {
    var rest := ShareAfterScore(total, percentage, minutes, seconds);
    ParseIntRoundTrip(score, rest);
    EndsWithAppend(NatToString(score), rest, ShareClosing);
    EndsWithAppend("I named ", NatToString(score) + rest, ShareClosing);
    "I named " + (NatToString(score) + rest)
  }

  /** The share text after the score: "/T countries (P%) in Mm Ss!" and the
      challenge line. */
  function ShareAfterScore(total: nat, percentage: int, minutes: int, seconds: int): (r: string)
    ensures r != [] && r[0] == '/'
    ensures EndsWith(r, ShareClosing)
  {
    var x5 := IntToString(seconds) + ShareClosing;
    var x4 := "m " + x5;
    var x3 := "%) in " + (IntToString(minutes) + x4);
    var x2 := " countries (" + (IntToString(percentage) + x3);
    EndsWithAppend(IntToString(seconds), ShareClosing, ShareClosing);
    EndsWithAppend("m ", x5, ShareClosing);
    EndsWithAppend(IntToString(minutes), x4, ShareClosing);
    EndsWithAppend("%) in ", IntToString(minutes) + x4, ShareClosing);
    EndsWithAppend(IntToString(percentage), x3, ShareClosing);
    EndsWithAppend(" countries (", IntToString(percentage) + x3, ShareClosing);
    EndsWithAppend(NatToString(total), x2, ShareClosing);
    EndsWithAppend("/", NatToString(total) + x2, ShareClosing);
    "/" + (NatToString(total) + x2)
  }

  /** `prefix` followed by the rest, giving the rest. */
  function AfterPrefix(t: string, prefix: string): (r: Option<string>)
    ensures r.Some? ==> t == prefix + r.value
  {
    if prefix <= t then
      assert t == prefix + t[|prefix|..];
      Some(t[|prefix|..])
    else None
  }

  /** Reads the five numbers back out of a share text, each after its fixed
      text: the score after "I named ", the total after "/", the percentage
      after " countries (", the minutes after "%) in " and the seconds after
      "m ", with the challenge line closing the text. */
  function ShareValues(t: string): Option<(int, int, int, int, int)> {
    match AfterPrefix(t, "I named ")
    case None => None
    case Some(t1) =>
      match ReadInt(t1)
      case None => None
      case Some((a, t2)) =>
        match AfterPrefix(t2, "/")
        case None => None
        case Some(t3) =>
          match ReadInt(t3)
          case None => None
          case Some((b, t4)) =>
            match AfterPrefix(t4, " countries (")
            case None => None
            case Some(t5) =>
              match ReadInt(t5)
              case None => None
              case Some((c, t6)) =>
                match AfterPrefix(t6, "%) in ")
                case None => None
                case Some(t7) =>
                  match ReadInt(t7)
                  case None => None
                  case Some((d, t8)) =>
                    match AfterPrefix(t8, "m ")
                    case None => None
                    case Some(t9) =>
                      match ReadInt(t9)
                      case None => None
                      case Some((e, t10)) =>
                        if t10 == ShareClosing then Some((a, b, c, d, e)) else None
  }

  lemma AfterPrefixOf(prefix: string, rest: string)
    ensures AfterPrefix(prefix + rest, prefix) == Some(rest)
  {
    assert prefix <= prefix + rest;
    assert (prefix + rest)[|prefix|..] == rest;
  }

  /** Every number the share text shows is where the reader finds it: the
      score, the total, the percentage, the minutes and the seconds. */
  lemma ShareTextReadsBack(score: nat, total: nat, percentage: int, minutes: int, seconds: int)
    ensures ShareValues(ShareText(score, total, percentage, minutes, seconds))
            == Some((score, total, percentage, minutes, seconds))
  {
    var x5 := IntToString(seconds) + ShareClosing;
    var x4 := "m " + x5;
    var x3 := "%) in " + (IntToString(minutes) + x4);
    var x2 := " countries (" + (IntToString(percentage) + x3);
    var x1 := "/" + (NatToString(total) + x2);
    var t := ShareText(score, total, percentage, minutes, seconds);
    assert t == "I named " + (IntToString(score) + x1);
    AfterPrefixOf("I named ", IntToString(score) + x1);
    ReadIntRoundTrip(score, x1);
    AfterPrefixOf("/", IntToString(total) + x2);
    ReadIntRoundTrip(total, x2);
    AfterPrefixOf(" countries (", IntToString(percentage) + x3);
    ReadIntRoundTrip(percentage, x3);
    AfterPrefixOf("%) in ", IntToString(minutes) + x4);
    ReadIntRoundTrip(minutes, x4);
    AfterPrefixOf("m ", x5);
    ReadIntRoundTrip(seconds, ShareClosing);
  }

  /** The share text pins down every number in it: two results that share the
      same text agree on score, total, percentage, minutes and seconds. */
  lemma ShareTextInjective(s1: nat, t1: nat, p1: int, m1: int, e1: int,
                           s2: nat, t2: nat, p2: int, m2: int, e2: int)
    requires ShareText(s1, t1, p1, m1, e1) == ShareText(s2, t2, p2, m2, e2)
    ensures s1 == s2 && t1 == t2 && p1 == p2 && m1 == m2 && e1 == e2
  {
    ShareTextReadsBack(s1, t1, p1, m1, e1);
    ShareTextReadsBack(s2, t2, p2, m2, e2);
  }

  /** Everything the screen derives from a finished game. */
  datatype Summary = Summary(title: string, percentage: int, timeTaken: string, shareText: string)

  /** The screen for `score` countries named out of `total` with
      `timeRemaining` seconds left: the rank heading, the percentage, the
      clock of the time taken, and the share text built from the same
      minutes and seconds the clock shows. */
  function Screen(score: nat, total: nat, percentage: int, timeRemaining: int): (r: Summary)
    requires 0 <= timeRemaining <= QuizGame.TimeBudget
    ensures r.title == RankTitle(GetRank(score, total, percentage)) && r.percentage == percentage
    ensures (r.title == "Perfect Score!") <==> score == total
    ensures ClockValue(r.timeTaken) == Some(QuizGame.TimeBudget - timeRemaining)
    ensures |r.shareText| >= 8 && ParseInt(r.shareText[8..]) == Some(score)
    ensures var v := ShareValues(r.shareText);
            && v.Some? && v.value.0 == score && v.value.1 == total && v.value.2 == percentage
            && 0 <= v.value.4 < 60 && v.value.3 * 60 + v.value.4 == QuizGame.TimeBudget - timeRemaining
  {
    var (minutes, seconds) := TakenMinutesSeconds(timeRemaining);
    var rank := GetRank(score, total, percentage);
    ClockRoundTrip(TimeTaken(timeRemaining));
    ShareTextReadsBack(score, total, percentage, minutes, seconds);
    Summary(RankTitle(rank), percentage, FormatClock(TimeTaken(timeRemaining)),
            ShareText(score, total, percentage, minutes, seconds))
  }
}
