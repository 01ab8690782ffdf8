/**
 * The scoreboard provider's event records, already parsed, and the compact game summaries
 * the relay serves, with the per-event field derivations of `transformNbaData`,
 * `transformMlbData` and `transformNflData`.
 */
module Scoreboard {
  import opened Wrappers
  import opened Text
  import opened Meridiem
  import opened Decimal

  /** Scores are passed through exactly as the provider sends them. */
  type Score = string

  /** `competitions[0].competitors[k]`: the team's abbreviation and its score. */
  datatype Competitor = Competitor(abbreviation: string, score: Score)

  /** `competitions[0].status`: the status type name and the period number. */
  datatype CompetitionStatus = CompetitionStatus(name: string, period: int)

  datatype Competition = Competition(status: CompetitionStatus, competitors: seq<Competitor>)

  /**
   * One provider event. `shortDetail` is `event.status.type.shortDetail`, which is read
   * from the event itself and not from its competition.
   */
  datatype Event = Event(shortName: string, shortDetail: string, competitions: seq<Competition>)

  /** The provider's response body; `events` is None when the body has no `events` field. */
  datatype Board = Board(events: Option<seq<Event>>)

  datatype TeamScore = TeamScore(name: string, score: Score)

  /** The three record shapes the transforms build. */
  datatype Summary =
    | NbaSummary(game: string, time: string, teams: seq<TeamScore>, status: string)
    | MlbSummary(game: string, time: string, teams: seq<TeamScore>, status: string, statusShort: string)
    | NflSummary(game: string, status: string, time: string, teams: seq<TeamScore>, statusShort: string)

  /** Which of the three transforms builds a summary. */
  datatype Shape = NbaShape | MlbShape | NflShape

  const SEPARATOR: string := " - "
  const STATUS_FINAL: string := "STATUS_FINAL"
  const STATUS_SCHEDULED: string := "STATUS_SCHEDULED"

  /**
   * The event can be read without a TypeError: it has a first competition, and that
   * competition has at least two competitors. Further competitors are ignored.
   */
  predicate WellFormed(e: Event) {
    |e.competitions| >= 1 && |e.competitions[0].competitors| >= 2
  }

  /** The display time: piece [1] of the split with its first " PM" tightened, or the whole detail. */
  function DisplayTime(detail: string): string {
    var pieces := Split(detail, SEPARATOR);
    if |pieces| > 1 then ReplaceFirst(pieces[1], " PM", "PM") else pieces[0]
  }

  /** The NFL long status: the meridiem rewrite, then the first " - " collapsed to one space. */
  function LongStatus(detail: string): string {
    ReplaceFirst(CompactMeridiem(detail), SEPARATOR, " ")
  }

  /** The `if`-chain on the competition status name, with the league's live label last. */
  function StatusCode(name: string, live: string): string {
    if name == STATUS_FINAL then "F"
    else if name == STATUS_SCHEDULED then "PRE"
    else live
  }

  /** The live label of the NFL and NBA transforms, `Q${status.period}`. */
  function QuarterLabel(period: int): string {
    "Q" + IntToDecimal(period)
  }

  /** The two teams, read positionally from the first competition. */
  function Teams(e: Event): seq<TeamScore>
    requires WellFormed(e)
  {
    var c := e.competitions[0].competitors;
    [TeamScore(c[0].abbreviation, c[0].score), TeamScore(c[1].abbreviation, c[1].score)]
  }

  function SummarizeNba(e: Event): Summary
    requires WellFormed(e)
  {
    NbaSummary(e.shortName, DisplayTime(e.shortDetail), Teams(e),
               StatusCode(e.competitions[0].status.name, QuarterLabel(e.competitions[0].status.period)))
  }

  function SummarizeMlb(e: Event): Summary
    requires WellFormed(e)
  {
    var time := DisplayTime(e.shortDetail);
    var info := StatusCode(e.competitions[0].status.name, time);
    MlbSummary(e.shortName, time, Teams(e), info, info)
  }

  function SummarizeNfl(e: Event): Summary
    requires WellFormed(e)
  {
    NflSummary(e.shortName, LongStatus(e.shortDetail), DisplayTime(e.shortDetail), Teams(e),
               StatusCode(e.competitions[0].status.name, QuarterLabel(e.competitions[0].status.period)))
  }

  function Summarize(shape: Shape, e: Event): Summary
    requires WellFormed(e)
  {
    match shape
    case NbaShape => SummarizeNba(e)
    case MlbShape => SummarizeMlb(e)
    case NflShape => SummarizeNfl(e)
  }

  /**
   * Every summary, whatever its shape, keeps the short name verbatim, carries exactly the
   * first two competitors in order with their scores untouched, and the display time.
   */
  lemma SummaryFields(shape: Shape, e: Event)
    requires WellFormed(e)
    ensures var r := Summarize(shape, e);
      && r.game == e.shortName
      && r.time == DisplayTime(e.shortDetail)
      && |r.teams| == 2
      && r.teams[0].name == e.competitions[0].competitors[0].abbreviation
      && r.teams[0].score == e.competitions[0].competitors[0].score
      && r.teams[1].name == e.competitions[0].competitors[1].abbreviation
      && r.teams[1].score == e.competitions[0].competitors[1].score
    ensures shape == NbaShape <==> Summarize(shape, e).NbaSummary?
    ensures shape == MlbShape <==> Summarize(shape, e).MlbSummary?
    ensures shape == NflShape <==> Summarize(shape, e).NflSummary?
  {
  }

  /**
   * The NFL and NBA status code is "F" exactly for a final game, "PRE" exactly for a
   * scheduled one, and otherwise "Q" followed by the period, which reads back from it.
   */
  lemma QuarterStatusCode(name: string, period: int)
    ensures var r := StatusCode(name, QuarterLabel(period));
      && (r == "F" <==> name == STATUS_FINAL)
      && (r == "PRE" <==> name == STATUS_SCHEDULED)
      && (name != STATUS_FINAL && name != STATUS_SCHEDULED ==>
            |r| >= 2 && r[0] == 'Q' && r[1..] == IntToDecimal(period) && ParseInt(r[1..]) == period)
  {
    IntDecimalRoundTrip(period);
    var q := QuarterLabel(period);
    assert q[0] == 'Q' && q[1..] == IntToDecimal(period);
    assert q != "F" && q != "PRE" by {
      assert "F"[0] != 'Q' && "PRE"[0] != 'Q';
    }
  }

  /**
   * The MLB summary's two status fields are always equal; a final game reads "F", a
   * scheduled one "PRE", and any other game repeats its display time.
   */
  lemma MlbStatusCode(e: Event)
    requires WellFormed(e)
    ensures var r := SummarizeMlb(e);
      && r.status == r.statusShort
      && (e.competitions[0].status.name == STATUS_FINAL ==> r.status == "F")
      && (e.competitions[0].status.name == STATUS_SCHEDULED ==> r.status == "PRE")
      && (var name := e.competitions[0].status.name;
          name != STATUS_FINAL && name != STATUS_SCHEDULED ==> r.status == r.time)
  {
  }

  /** A detail with no " - " is its own display time, untouched even where it holds " PM". */
  lemma DisplayTimeWithoutSeparator(detail: string)
    requires !Contains(detail, SEPARATOR)
    ensures DisplayTime(detail) == detail
  {
    SplitJoin(detail, SEPARATOR);
    SplitCount(detail, SEPARATOR);
  }

  /**
   * With the leftmost " - " at `i`, the display time is the text after it up to the next
   * separator (not everything after the first), with its first " PM" tightened to "PM".
   */
  lemma DisplayTimeAtFirstSeparator(detail: string, i: nat)
    requires OccursAt(detail, SEPARATOR, i)
    requires forall j: nat :: j < i ==> !OccursAt(detail, SEPARATOR, j)
    ensures DisplayTime(detail) == ReplaceFirst(Split(detail[i + 3..], SEPARATOR)[0], " PM", "PM")
  {
    SplitAtFirst(detail, SEPARATOR, i);
  }

  /**
   * A detail of two parts ("clock - state"), whose first separator follows the clock and
   * whose state holds none, shows the state with its first " PM" tightened.
   */
  lemma DisplayTimeOfTwoParts(a: string, b: string)
    requires forall j: nat :: j < |a| ==> !OccursAt(a + SEPARATOR + b, SEPARATOR, j)
    requires !Contains(b, SEPARATOR)
    ensures DisplayTime(a + SEPARATOR + b) == ReplaceFirst(b, " PM", "PM")
  {
    SplitAfterFirstPiece(a, SEPARATOR, b);
    SplitJoin(b, SEPARATOR);
    SplitCount(b, SEPARATOR);
  }

  /**
   * Two parts with no dash in either and no 'P' in the second: the display time is the
   * second part as it is.
   */
  lemma PlainTwoPartDisplayTime(a: string, b: string)
    requires forall i :: 0 <= i < |a| ==> a[i] != '-'
    requires forall i :: 0 <= i < |b| ==> b[i] != '-' && b[i] != 'P'
    ensures DisplayTime(a + SEPARATOR + b) == b
  {
    NoSeparatorInDashFree(a, b);
    AbsentCharacter(b, SEPARATOR, 1);
    DisplayTimeOfTwoParts(a, b);
    AbsentCharacter(b, " PM", 1);
    ReplaceFirstAbsent(b, " PM", "PM");
  }

  /**
   * With three parts ("day - clock - network"), where the first two separators are the
   * ones after the day and after the clock, the display time comes from the clock only,
   * whatever follows the second separator.
   */
  lemma DisplayTimeOfThreeParts(a: string, b: string, c: string)
    requires forall j: nat :: j < |a| ==> !OccursAt(a + SEPARATOR + (b + SEPARATOR + c), SEPARATOR, j)
    requires forall j: nat :: j < |b| ==> !OccursAt(b + SEPARATOR + c, SEPARATOR, j)
    ensures DisplayTime(a + SEPARATOR + b + SEPARATOR + c) == ReplaceFirst(b, " PM", "PM")
  {
    assert a + SEPARATOR + b + SEPARATOR + c == a + SEPARATOR + (b + SEPARATOR + c);
    SplitAfterFirstPiece(a, SEPARATOR, b + SEPARATOR + c);
    SplitAfterFirstPiece(b, SEPARATOR, c);
  }
}
