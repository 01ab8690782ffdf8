/**
 * Worked inputs for the per-event derivations, each proved from the general lemmas. Each
 * input text is a parameter fixed by a `requires` rather than a literal in the `ensures`:
 * the verifier then reasons about the text through the general lemmas instead of
 * unfolding the string functions character by character on the literal.
 */
module Examples {
  import opened Text
  import opened Meridiem
  import opened Decimal
  import opened Scoreboard

  /** A game in progress: the clock part before the separator is dropped. */
  lemma InProgressDisplayTime(detail: string)
    requires detail == "7:30 PM - 2nd Qtr"
    ensures DisplayTime(detail) == "2nd Qtr"
  {
    var clock, state := "7:30 PM", "2nd Qtr";
    assert detail == clock + SEPARATOR + state;
    PlainTwoPartDisplayTime(clock, state);
  }

  /** A dash inside the first part does not move the cut: "1-0 - 2nd" shows "2nd". */
  lemma DashBeforeSeparatorDisplayTime(detail: string)
    requires detail == "1-0 - 2nd"
    ensures DisplayTime(detail) == "2nd"
  {
    var score, state := "1-0", "2nd";
    assert detail == score + SEPARATOR + state;
    forall j: nat | j < |score|
      ensures !OccursAt(detail, SEPARATOR, j)
    {
      assert detail[j..j + 3][0] == detail[j] != ' ';
    }
    AbsentCharacter(state, SEPARATOR, 1);
    DisplayTimeOfTwoParts(score, state);
    AbsentCharacter(state, " PM", 1);
    ReplaceFirstAbsent(state, " PM", "PM");
  }

  /** A detail without a separator is its own display time. */
  lemma FinalDisplayTime()
    ensures DisplayTime("Final") == "Final"
  {
    AbsentCharacter("Final", SEPARATOR, 1);
    DisplayTimeWithoutSeparator("Final");
  }

  /** Any status other than final or scheduled, in period 3, reads "Q3". */
  lemma ThirdQuarterCode(name: string)
    requires name != STATUS_FINAL && name != STATUS_SCHEDULED
    ensures StatusCode(name, QuarterLabel(3)) == "Q3"
  {
    QuarterStatusCode(name, 3);
  }

  /** Of three parts, the display time starts from the middle one. */
  lemma MiddlePieceChosen(detail: string)
    requires detail == "Sun - 1:00 PM - ESPN"
    ensures DisplayTime(detail) == ReplaceFirst("1:00 PM", " PM", "PM")
  {
    var day, clock, network := "Sun", "1:00 PM", "ESPN";
    assert detail == day + SEPARATOR + clock + SEPARATOR + network;
    NoSeparatorInDashFree(day, clock + SEPARATOR + network);
    NoSeparatorInDashFree(clock, network);
    DisplayTimeOfThreeParts(day, clock, network);
  }

  /** The first " PM" of a clock text loses its space. */
  lemma ClockTightened(clock: string)
    requires clock == "1:00 PM"
    ensures ReplaceFirst(clock, " PM", "PM") == "1:00PM"
  {
    assert OccursAt(clock, " PM", 4) by {
      assert clock[4..7] == " PM";
    }
    forall j: nat | j < 4
      ensures !OccursAt(clock, " PM", j)
    {
      assert clock[j..j + 3][1] == clock[j + 1] != 'P';
    }
    ReplaceFirstAt(clock, " PM", "PM", 4);
  }

  /**
   * With two separators only the text between them is shown: the broadcast suffix is
   * dropped, and the first " PM" is tightened.
   */
  lemma ThreePartDisplayTime(detail: string)
    requires detail == "Sun - 1:00 PM - ESPN"
    ensures DisplayTime(detail) == "1:00PM"
  {
    MiddlePieceChosen(detail);
    ClockTightened("1:00 PM");
  }

  /** The tightening only concerns " PM": a morning time is shown as it is. */
  lemma MorningDisplayTime(detail: string)
    requires detail == "Sun - 11:00 AM"
    ensures DisplayTime(detail) == "11:00 AM"
  {
    var day, clock := "Sun", "11:00 AM";
    assert detail == day + SEPARATOR + clock;
    PlainTwoPartDisplayTime(day, clock);
  }

  /** The meridiem rewrite of a kickoff time: ":00 PM" shrinks to "PM". */
  lemma KickoffCompacted(detail: string)
    requires detail == "10/5 - 1:00 PM EDT"
    ensures CompactMeridiem(detail) == "10/5 - 1PM EDT"
  {
    forall j: nat | j < 8
      ensures MatchLength(detail, j) == 0
    {
      assert detail[j..j + 3][0] == detail[j] != ':';
      assert IsJsWhitespace(detail[j]) ==> !InMeridiemClass(detail[j + 1]);
    }
    assert MatchLength(detail, 8) == 6 by {
      assert detail[8..11] == ":00";
    }
    CompactMeridiemAt(detail, 8);
  }

  /** The separator collapse of the compacted kickoff text. */
  lemma KickoffSeparatorCollapsed(compact: string)
    requires compact == "10/5 - 1PM EDT"
    ensures ReplaceFirst(compact, SEPARATOR, " ") == "10/5 1PM EDT"
  {
    assert OccursAt(compact, SEPARATOR, 4) by {
      assert compact[4..7] == SEPARATOR;
    }
    forall j: nat | j < 4
      ensures !OccursAt(compact, SEPARATOR, j)
    {
      assert compact[j..j + 3][1] == compact[j + 1] != '-';
    }
    ReplaceFirstAt(compact, SEPARATOR, " ", 4);
  }

  /**
   * The NFL long status of a scheduled game: ":00 PM" shrinks to "PM", then the first
   * separator becomes a single space.
   */
  lemma ScheduledLongStatus(detail: string)
    requires detail == "10/5 - 1:00 PM EDT"
    ensures LongStatus(detail) == "10/5 1PM EDT"
  {
    KickoffCompacted(detail);
    KickoffSeparatorCollapsed(CompactMeridiem(detail));
  }

  /** The bracket class `[A|P]` also admits a bar, so " |M" is rewritten too. */
  lemma BarMeridiemRewritten(text: string)
    requires text == "8 |M"
    ensures CompactMeridiem(text) == "8|M"
  {
    assert MatchLength(text, 0) == 0;
    assert MatchLength(text, 1) == 3;
    CompactMeridiemAt(text, 1);
  }

  /** Without the `g` flag only the leftmost match changes; a later " PM" stays. */
  lemma OnlyFirstMeridiemRewritten(text: string)
    requires text == "1 PM 4 PM"
    ensures CompactMeridiem(text) == "1PM 4 PM"
  {
    assert MatchLength(text, 0) == 0;
    assert MatchLength(text, 1) == 3;
    CompactMeridiemAt(text, 1);
  }
}
