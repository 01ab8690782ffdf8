/**
 * The list transforms: each walks `data['events']` with `forEach`, pushing one summary per
 * event onto a local `result` array. A missing `events` field or an event without two
 * competitors makes the walk throw, and the handler then answers with its error body.
 */
module Transforms {
  import opened Wrappers
  import opened Scoreboard

  /** Why a request could not be answered with games. */
  datatype Error =
    | UpstreamError(message: string)  // the fetch itself failed
    | EventsMissing                   // the body has no `events` field
    | MalformedEvent(index: nat)      // the first event that cannot be read

  /** The per-event summary of one transform, as a value the list walk applies. */
  function Summarizer(shape: Shape): Event --> Summary {
    e requires WellFormed(e) => Summarize(shape, e)
  }

  /** The results of `summarize` on `events[k..]`, or the first malformed event at or after `k`. */
  function MapFrom<S>(summarize: Event --> S, events: seq<Event>, k: nat): (r: Result<seq<S>, Error>)
    requires k <= |events|
    requires forall e :: WellFormed(e) ==> summarize.requires(e)
    ensures r.Ok? <==> forall j :: k <= j < |events| ==> WellFormed(events[j])
    ensures r.Ok? ==> |r.value| == |events| - k
    ensures r.Ok? ==> forall j :: k <= j < |events| ==> r.value[j - k] == summarize(events[j])
    ensures r.Err? ==> r.error.MalformedEvent? && k <= r.error.index < |events|
    ensures r.Err? ==> !WellFormed(events[r.error.index])
    ensures r.Err? ==> forall j :: k <= j < r.error.index ==> WellFormed(events[j])
    decreases |events| - k
  {
    if k == |events| then Ok([])
    else if !WellFormed(events[k]) then Err(MalformedEvent(k))
    else
      match MapFrom(summarize, events, k + 1)
      case Err(e) => Err(e)
      case Ok(rest) => Ok([summarize(events[k])] + rest)
  }

  /** A walk over a whole body; a body without `events` fails before any event is read. */
  function MapBoard<S>(summarize: Event --> S, board: Board): Result<seq<S>, Error>
    requires forall e :: WellFormed(e) ==> summarize.requires(e)
  {
    match board.events
    case None => Err(EventsMissing)
    case Some(events) => MapFrom(summarize, events, 0)
  }

  /**
   * A transform of a whole body: one summary per event, in event order, when every event
   * is readable; otherwise the error of the first thing that throws.
   */
  function Transform(shape: Shape, board: Board): (r: Result<seq<Summary>, Error>)
    ensures board.events.None? ==> r == Err(EventsMissing)
    ensures board.events.Some? ==>
      (r.Ok? <==> forall j :: 0 <= j < |board.events.value| ==> WellFormed(board.events.value[j]))
    ensures r.Ok? ==> board.events.Some? && |r.value| == |board.events.value|
    ensures r.Ok? ==> forall j :: 0 <= j < |r.value| ==>
      WellFormed(board.events.value[j]) && r.value[j] == Summarize(shape, board.events.value[j])
    ensures board.events.Some? && r.Err? ==>
      && r.error.MalformedEvent?
      && r.error.index < |board.events.value|
      && !WellFormed(board.events.value[r.error.index])
      && forall j :: 0 <= j < r.error.index ==> WellFormed(board.events.value[j])
  {
    MapBoard(Summarizer(shape), board)
  }

  /** The `forEach`/`push` loop shared by the three transforms, applying the per-event summary of each. */
  method TransformEvents<S>(summarize: Event --> S, board: Board) returns (r: Result<seq<S>, Error>)
    requires forall e :: WellFormed(e) ==> summarize.requires(e)
    ensures r == MapBoard(summarize, board)
  {
    if board.events.None? {
      return Err(EventsMissing);
    }
    var events := board.events.value;
    var result: seq<S> := [];
    var i := 0;
    while i < |events|
      invariant 0 <= i <= |events|
      invariant forall j :: 0 <= j < i ==> WellFormed(events[j])
      invariant |result| == i
      invariant forall j :: 0 <= j < i ==> result[j] == summarize(events[j])
    {
      if !WellFormed(events[i]) {
        return Err(MalformedEvent(i));
      }
      result := result + [summarize(events[i])];
      i := i + 1;
    }
    var expected := MapFrom(summarize, events, 0);
    assert forall j :: 0 <= j < |events| ==> expected.value[j - 0] == result[j];
    assert expected.value == result;
    return Ok(result);
  }

  /** `transformData`, the transform both the `/nfl` and the `/nba` routes call: the NFL one. */
  method TransformData(board: Board) returns (r: Result<seq<Summary>, Error>)
    ensures r == Transform(NflShape, board)
  {
    r := TransformEvents(Summarizer(NflShape), board);
  }

  /**
   * The NBA route's in-place append of yesterday's games: today's games stay at the front
   * in their order and yesterday's follow in theirs.
   */
  method AppendGames(today: seq<Summary>, yesterday: seq<Summary>) returns (combined: seq<Summary>)
    ensures |combined| == |today| + |yesterday|
    ensures forall j :: 0 <= j < |today| ==> combined[j] == today[j]
    ensures forall j :: 0 <= j < |yesterday| ==> combined[|today| + j] == yesterday[j]
  {
    combined := today;
    var i := 0;
    while i < |yesterday|
      invariant 0 <= i <= |yesterday|
      invariant combined == today + yesterday[..i]
    {
      combined := combined + [yesterday[i]];
      i := i + 1;
    }
  }
}
