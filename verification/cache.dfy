/**
 * The module-level cache and the three route handlers. Each league has one slot holding
 * the last list served (or nothing yet) and the time it was stored. A request is answered
 * from the slot while it is fresh and holds a list; otherwise the upstream body is fetched
 * and transformed, and on success the slot is replaced whole. A failure leaves it alone.
 *
 * The network and the clock are inputs: `now` is the time read at the start of a request,
 * `storedAt` the second reading taken after the fetch, and each fetch is an outcome.
 */
module Cache {
  import opened Wrappers
  import opened Scoreboard
  import opened Transforms

  /** Five minutes, in milliseconds. */
  const CACHE_DURATION: int := 5 * 60 * 1000

  datatype League = Mlb | Nfl | Nba

  /** One league's cache entry: `data` is None until the first successful refresh. */
  datatype Slot = Slot(data: Option<seq<Summary>>, lastFetch: int)

  /** Every slot's value when the process starts. */
  const EMPTY_SLOT: Slot := Slot(None, 0)

  /** What a fetch of the scoreboard produced: a failure with its message, or a parsed body. */
  datatype FetchOutcome = FetchFailed(message: string) | Fetched(board: Board)

  /** A 200 answer with its `X-Cache-Hit` flag, or the 500 error body. */
  datatype Response = Served(games: seq<Summary>, cacheHit: bool) | Failed(message: string, cause: Error)

  const ERROR_MESSAGE: string := "Error fetching data"

  /** The freshness test, `(currentTime - lastFetch) < CACHE_DURATION`. */
  predicate IsFresh(slot: Slot, now: int) {
    now - slot.lastFetch < CACHE_DURATION
  }

  /** A request is answered from the slot: it is fresh and its data is present (an empty list is present). */
  predicate ServesFromCache(slot: Slot, now: int) {
    IsFresh(slot, now) && slot.data.Some?
  }

  /** The summary shape each route builds: `/nba` calls `transformData`, which is the NFL transform. */
  function RouteShape(league: League): Shape {
    match league
    case Mlb => MlbShape
    case Nfl => NflShape
    case Nba => NflShape
  }

  /**
   * What a refresh of `league` produces from today's fetch and, for NBA only, yesterday's:
   * the steps run in order and the first one that fails decides the error.
   */
  function Refreshed(league: League, today: FetchOutcome, yesterday: FetchOutcome): Result<seq<Summary>, Error> {
    match today
    case FetchFailed(m) => Err(UpstreamError(m))
    case Fetched(board) =>
      var first := Transform(RouteShape(league), board);
      if league != Nba || first.Err? then first
      else
        match yesterday
        case FetchFailed(m) => Err(UpstreamError(m))
        case Fetched(earlier) =>
          var second := Transform(NflShape, earlier);
          if second.Err? then second else Ok(first.value + second.value)
  }

  /** The fetch-and-transform part of a handler, after the cache test has failed. */
  method Refresh(league: League, today: FetchOutcome, yesterday: FetchOutcome) returns (r: Result<seq<Summary>, Error>)
    ensures r == Refreshed(league, today, yesterday)
  {
    if today.FetchFailed? {
      return Err(UpstreamError(today.message));
    }
    var first;
    if league == Mlb {
      first := TransformEvents(Summarizer(MlbShape), today.board);
    } else {
      first := TransformData(today.board);
    }
    if league != Nba || first.Err? {
      return first;
    }
    if yesterday.FetchFailed? {
      return Err(UpstreamError(yesterday.message));
    }
    var second := TransformData(yesterday.board);
    if second.Err? {
      return second;
    }
    var combined := AppendGames(first.value, second.value);
    assert combined == first.value + second.value;
    return Ok(combined);
  }

  /**
   * The freshness window is half-open: a slot stored at `t` is fresh strictly before
   * `t + 300000` and stale from then on.
   */
  lemma FreshnessBoundary(slot: Slot, now: int)
    ensures IsFresh(slot, now) <==> now < slot.lastFetch + 300000
    ensures !IsFresh(slot, slot.lastFetch + 300000)
    ensures ServesFromCache(slot, now) <==> now - slot.lastFetch < 300000 && slot.data.Some?
  {
  }

  /** A slot that was never filled never answers, so the first request of each league refetches. */
  lemma FirstRequestRefetches(now: int)
    ensures !ServesFromCache(EMPTY_SLOT, now)
  {
  }

  /**
   * After a refresh stored at `storedAt`, every request within five minutes is answered
   * from the slot, even when the stored list is empty.
   */
  lemma StoredSlotServes(games: seq<Summary>, storedAt: int, now: int)
    requires now < storedAt + CACHE_DURATION
    ensures ServesFromCache(Slot(Some(games), storedAt), now)
  {
  }

  /**
   * A refresh of `/mlb` or `/nfl` succeeds exactly when today's fetch succeeded and its
   * transform did, and then yields that transform; yesterday's outcome plays no part.
   */
  lemma SingleDayRefresh(league: League, today: FetchOutcome, yesterday: FetchOutcome)
    requires league != Nba
    ensures var r := Refreshed(league, today, yesterday);
      && (today.FetchFailed? ==> r == Err(UpstreamError(today.message)))
      && (today.Fetched? ==> r == Transform(RouteShape(league), today.board))
  {
  }

  /**
   * The NBA refresh succeeds exactly when both fetches succeeded and every event of both
   * bodies is readable.
   */
  lemma NbaRefreshSucceeds(today: FetchOutcome, yesterday: FetchOutcome)
    ensures Refreshed(Nba, today, yesterday).Ok? <==>
      && today.Fetched? && today.board.events.Some?
      && yesterday.Fetched? && yesterday.board.events.Some?
      && (forall j :: 0 <= j < |today.board.events.value| ==> WellFormed(today.board.events.value[j]))
      && (forall j :: 0 <= j < |yesterday.board.events.value| ==> WellFormed(yesterday.board.events.value[j]))
  {
    if today.Fetched? && yesterday.Fetched? {
      var first := Transform(NflShape, today.board);
      var second := Transform(NflShape, yesterday.board);
      assert first.Ok? <==> (today.board.events.Some?
        && forall j :: 0 <= j < |today.board.events.value| ==> WellFormed(today.board.events.value[j]));
      assert second.Ok? <==> (yesterday.board.events.Some?
        && forall j :: 0 <= j < |yesterday.board.events.value| ==> WellFormed(yesterday.board.events.value[j]));
    }
  }

  /**
   * A successful NBA refresh holds today's transformed list followed by yesterday's: its
   * length is the sum of the two event counts, today's games keep their order at the
   * front and yesterday's follow in theirs. Both use the NFL transform.
   */
  lemma NbaRefreshOrder(today: FetchOutcome, yesterday: FetchOutcome)
    requires Refreshed(Nba, today, yesterday).Ok?
    ensures today.Fetched? && today.board.events.Some?
    ensures yesterday.Fetched? && yesterday.board.events.Some?
    ensures var games := Refreshed(Nba, today, yesterday).value;
      var first := Transform(NflShape, today.board);
      var second := Transform(NflShape, yesterday.board);
      && first.Ok? && second.Ok?
      && |games| == |today.board.events.value| + |yesterday.board.events.value|
      && games[..|first.value|] == first.value
      && games[|first.value|..] == second.value
  {
    var first := Transform(NflShape, today.board);
    var second := Transform(NflShape, yesterday.board);
    var games := first.value + second.value;
    assert Refreshed(Nba, today, yesterday).value == games;
    assert games[..|first.value|] == first.value;
    assert games[|first.value|..] == second.value;
  }

  /**
   * An NBA refresh fails when yesterday's fetch fails, even though today's body was
   * fetched and transformed: the combined answer is all or nothing.
   */
  lemma NbaYesterdayFailure(today: FetchOutcome, message: string)
    requires today.Fetched? && Transform(NflShape, today.board).Ok?
    ensures Refreshed(Nba, today, FetchFailed(message)) == Err(UpstreamError(message))
  {
  }

  /** The three slots, one per league, as the handlers reassign them. */
  class ScoreCache {
    var mlb: Slot
    var nfl: Slot
    var nba: Slot

    constructor ()
      ensures mlb == EMPTY_SLOT && nfl == EMPTY_SLOT && nba == EMPTY_SLOT
    {
      mlb, nfl, nba := EMPTY_SLOT, EMPTY_SLOT, EMPTY_SLOT;
    }

    function SlotOf(league: League): Slot
      reads this
    {
      match league
      case Mlb => mlb
      case Nfl => nfl
      case Nba => nba
    }

    /**
     * One request to the route of `league`. A fresh slot with data answers with a cache
     * hit and nothing changes. Otherwise a successful refresh replaces the slot whole with
     * the new list and `storedAt`, and answers with that list and no cache hit; a failed
     * one answers with the error body and leaves the slot as it was. The other two
     * leagues' slots never change.
     */
    method Handle(league: League, now: int, today: FetchOutcome, yesterday: FetchOutcome, storedAt: int)
      returns (resp: Response)
      modifies this
      ensures var before := old(SlotOf(league));
        ServesFromCache(before, now) ==> resp == Served(before.data.value, true) && SlotOf(league) == before
      ensures !ServesFromCache(old(SlotOf(league)), now) ==>
        match Refreshed(league, today, yesterday)
        case Ok(games) => resp == Served(games, false) && SlotOf(league) == Slot(Some(games), storedAt)
        case Err(e) => resp == Failed(ERROR_MESSAGE, e) && SlotOf(league) == old(SlotOf(league))
      ensures forall other: League :: other != league ==> SlotOf(other) == old(SlotOf(other))
    {
      var slot := SlotOf(league);
      if now - slot.lastFetch < CACHE_DURATION && slot.data.Some? {
        return Served(slot.data.value, true);
      }
      var outcome := Refresh(league, today, yesterday);
      if outcome.Err? {
        return Failed(ERROR_MESSAGE, outcome.error);
      }
      var entry := Slot(Some(outcome.value), storedAt);
      match league {
        case Mlb => mlb := entry;
        case Nfl => nfl := entry;
        case Nba => nba := entry;
      }
      return Served(outcome.value, false);
    }
  }

  /**
   * A sequence of `/nfl` requests: the first one refetches, one within five minutes is a
   * hit, and a failing refetch after expiry answers 500 while the stored list survives.
   */
  method RequestSequence(board: Board, message: string)
    requires board.events == Some([])
  {
    var cache := new ScoreCache();
    var first := cache.Handle(Nfl, 1000, Fetched(board), FetchFailed(message), 1200);
    assert first == Served([], false);
    var second := cache.Handle(Nfl, 250000, FetchFailed(message), FetchFailed(message), 250000);
    assert second == Served([], true);
    var third := cache.Handle(Nfl, 301200, FetchFailed(message), FetchFailed(message), 301300);
    assert third == Failed(ERROR_MESSAGE, UpstreamError(message));
    assert cache.nfl == Slot(Some([]), 1200);
    assert cache.SlotOf(Mlb) == EMPTY_SLOT && cache.SlotOf(Nba) == EMPTY_SLOT;
  }
}
