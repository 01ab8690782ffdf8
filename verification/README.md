# tiny_sports_api relay core in Dafny

This project models the core of a small scoreboard relay (`server.js`). The relay serves
three routes, `/mlb`, `/nfl` and `/nba`. Each route answers from a per-league cache slot
while the slot is less than five minutes old and holds a list. Otherwise it fetches the
provider's scoreboard, reshapes every event into a compact game summary, stores the list
with a fresh timestamp, and answers with it. Any failure answers with the error body
`{message: "Error fetching data", error}` and leaves the slot as it was. The NBA route also
fetches yesterday's scoreboard and appends those games after today's.

Modules, one concern each:

- `Text` (`text.dfy`): `indexOf`, `split(" - ")` and the first-occurrence-only string
  `replace`.
- `Meridiem` (`meridiem.dfy`): the non-global regex rewrite
  `replace(/(:00)?\s([A|P]M)/, "$2")`. The class `[A|P]` admits `A`, `P` and a literal `|`.
  `\s` is JavaScript's whitespace set.
- `Decimal` (`decimal.dfy`): how `` `Q${period}` `` renders an integer period, for periods
  small enough that JavaScript prints them in plain digits. It comes with a parser that
  reads the number back.
- `Scoreboard` (`scoreboard.dfy`): the parsed provider event, the three summary shapes, and
  the per-event derivations. These are the display time, the status code, the NFL long
  status and the two teams read by position.
- `Transforms` (`transform.dfy`): the `forEach`/`push` walk over `events`. The walk is
  specified by `MapFrom`, whose contract characterises it, by `MapBoard` over a whole body,
  and by `Transform` for a summary shape. The loop method is `TransformEvents`. Also here:
  the `transformData` alias and the NBA append loop.
- `Cache` (`cache.dfy`): slots, freshness, the refresh outcome of each route, and the
  class `ScoreCache`. The class's `Handle` method is the shared body of the three route
  handlers. The method `RequestSequence` plays three `/nfl` requests against one cache:
  a first request that refetches, a cache hit, and a failing refetch after expiry that
  keeps the stored list.
- `Examples` (`examples.dfy`): worked inputs, each proved from the general lemmas. The
  small texts they need, such as the digits of a period, are evaluated directly.

Quirks of the code that the model keeps:

- `/nba` calls `transformData`, which is the NFL transform. NBA answers therefore have the
  NFL shape. `transformNbaData` exists but no route calls it. It is modelled as the
  `NbaShape` summary and is not wired to a route.
- With two or more pieces after the split, the display time is piece `[1]` only.
- The status code reads `competitions[0].status`, while the time text reads
  `event.status.type.shortDetail`.
- The regex rewrites only the leftmost match. It also turns a bare `" PM"` into `"PM"`.
- An empty cached list counts as present.

## Model

| member | source | states |
|---|---|---|
| `Text.SplitJoin` | server.js:135 | Joining the pieces of `split(" - ")` with the separator gives back the input |
| `Text.SplitPiecesClean` | server.js:135 | No piece of `split(" - ")` holds the separator |
| `Text.SplitCount` | server.js:135 | `split(" - ")` yields exactly one piece iff the separator does not occur, so `gameTime.length > 1` tests for a separator |
| `Text.Split` | server.js:135 | `split(" - ")`: cut at each leftmost remaining occurrence of the separator, left to right; always at least one piece |
| `Text.AbsentCharacter` | server.js:135-136 | A text lacking one character of a pattern contains no occurrence of the pattern, so neither `split` nor `replace` finds one there |
| `Text.SplitAtFirst` | server.js:135 | With the leftmost separator at `i`, the split's first piece is everything before `i` and the rest is the split of what follows the separator, which fixes where `split` cuts |
| `Text.ReplaceFirstAbsent` | server.js:136 | `replace(' PM','PM')` leaves a string without `" PM"` unchanged |
| `Text.ReplaceFirstAt` | server.js:136 | `replace` with a string pattern rewrites exactly the leftmost occurrence and keeps everything before and after it, later occurrences included |
| `Text.ReplaceFirst` | server.js:136 | `replace(pat, rep)` with a string pattern and a replacement text without `$`: the leftmost occurrence, if any, is swapped for `rep` |
| `Text.SplitAfterFirstPiece` | server.js:211 | Splitting `a + " - " + b`, where no separator starts before the end of `a`, gives `a` followed by the pieces of `b` |
| `Text.NoSeparatorInDashFree` | server.js:211 | In `a + " - " + b` with no dash in `a`, no separator starts inside `a`, so the first cut is right after `a` |
| `Meridiem.MatchLength` | server.js:219 | The length of the match of `(:00)?\s([A|P]M)` at one start position: the greedy six-character form with `:00` first, then the three-character form, else no match |
| `Meridiem.FirstMatch` | server.js:219 | The regex search finds the leftmost start where `(:00)?\s([A|P]M)` matches, and no earlier start matches |
| `Meridiem.CompactMeridiem` | server.js:219 | `replace(/(:00)?\s([A|P]M)/, "$2")`: the leftmost match, if any, is replaced by its `[A|P]M` capture |
| `Meridiem.CompactMeridiemNoMatch` | server.js:219 | Without a match the long status is unchanged by the regex step |
| `Meridiem.CompactMeridiemAt` | server.js:219 | With the leftmost match at `i`, `":00 XM"` or `" XM"` becomes `"XM"` and the rest of the text, later matches included, is kept |
| `Decimal.NatToDecimal` | server.js:229 | The rendered period is non-empty decimal digits with no leading zero |
| `Decimal.NatDecimalRoundTrip` | server.js:229 | Reading the rendered digits back gives the number |
| `Decimal.IntToDecimal` | server.js:229 | The template literal's text of an integer period: `-` for a negative value, then its decimal digits |
| `Decimal.IntDecimalRoundTrip` | server.js:229 | The rendering of any integer (with `-` for negatives) reads back as that integer |
| `Scoreboard.WellFormed` | server.js:137-140 | Reading an event does not throw a TypeError: it has a first competition with at least two competitors (the same reads at lines 174-177 and 213-216); otherwise the transform fails |
| `Scoreboard.Teams` | server.js:155-158 | The two teams read by position from competitors 0 and 1 of the first competition, each with its abbreviation and its score unchanged (read at lines 137-140) |
| `Scoreboard.DisplayTime` | server.js:135-136 | The display time: piece `[1]` of `split(" - ")` with its first `" PM"` tightened when there are two or more pieces, else the whole detail |
| `Scoreboard.LongStatus` | server.js:219-220 | The NFL `status` text: the meridiem regex rewrite, then the first `" - "` replaced by one space |
| `Scoreboard.StatusCode` | server.js:142-150 | `"F"` for `STATUS_FINAL`, `"PRE"` for `STATUS_SCHEDULED`, otherwise the league's live label |
| `Scoreboard.QuarterLabel` | server.js:149 | The NBA and NFL live label `` `Q${status.period}` `` |
| `Scoreboard.SummarizeNba` | server.js:133-160 | One `transformNbaData` record: game, time, the two teams and the status code |
| `Scoreboard.SummarizeMlb` | server.js:170-198 | One `transformMlbData` record: the status code, with the display time as live label, in both `status` and `status_short` |
| `Scoreboard.SummarizeNfl` | server.js:208-241 | One `transformNflData` record: game, the long status, the display time, the two teams and the quarter status code |
| `Scoreboard.SummaryFields` | server.js:129-245 | Every summary keeps `shortName` verbatim, holds the display time and exactly competitors 0 and 1 in order with scores untouched; the summary variant is the transform's shape |
| `Scoreboard.QuarterStatusCode` | server.js:222-230 | NFL/NBA status code is `"F"` iff the name is `STATUS_FINAL`, `"PRE"` iff `STATUS_SCHEDULED`, otherwise `"Q"` + the period, which reads back as the period |
| `Scoreboard.MlbStatusCode` | server.js:179-197 | MLB `status` equals `status_short`; final gives `"F"`, scheduled `"PRE"`, anything else the display time |
| `Scoreboard.DisplayTimeWithoutSeparator` | server.js:211-212 | A detail without `" - "` is its own display time, even when it holds `" PM"` |
| `Scoreboard.DisplayTimeAtFirstSeparator` | server.js:172-173 | For any detail whose leftmost `" - "` is at `i`, the display time is the text after it up to the next separator (not everything after the first) with its first `" PM"` tightened |
| `Scoreboard.DisplayTimeOfTwoParts` | server.js:135-136 | A detail `"clock - state"` whose first separator follows `clock` and whose `state` holds none shows `state` with its first `" PM"` tightened |
| `Scoreboard.DisplayTimeOfThreeParts` | server.js:211-212 | A detail `"day - clock - network"` whose first two separators follow `day` and `clock` shows only `clock`, with its first `" PM"` tightened, whatever `network` is |
| `Transforms.MapFrom` | server.js:208-243 | The walk from event `k` succeeds iff every later event is readable; then one result per event in order; otherwise the error names the first unreadable event |
| `Transforms.MapBoard` | server.js:208 | `data['events'].forEach` (the same walk at lines 133 and 170): a body without `events` throws before any event is read, otherwise the walk from the first event |
| `Transforms.Transform` | server.js:204-245 | A body without `events` fails; otherwise one summary per event in event order when all events are readable, else the first unreadable event's index |
| `Transforms.TransformEvents` | server.js:166-202 | The `forEach`/`push` loop computes exactly the walk specified by `MapBoard` |
| `Transforms.TransformData` | server.js:125-127 | `transformData` computes the NFL transform |
| `Transforms.AppendGames` | server.js:107-110 | Appending yesterday's games one by one gives today's games in order followed by yesterday's in order |
| `Cache.IsFresh` | server.js:43-44 | `(currentTime - lastFetch) < CACHE_DURATION`, with `CACHE_DURATION` five minutes in milliseconds |
| `Cache.ServesFromCache` | server.js:44-45 | A request (lines 68-69 and 92-93 alike) is answered from the slot when it is fresh and its data is truthy; an empty list is truthy |
| `Cache.RouteShape` | server.js:125-127 | `/mlb` builds MLB summaries (line 50), while `/nfl` (line 74) and `/nba` (lines 99 and 106) both call `transformData`, the NFL transform |
| `Cache.Refreshed` | server.js:49-110 | The outcome of a refresh: today's fetch error, or the route's transform of today's body; for NBA then yesterday's fetch error or transform error, or the two lists concatenated |
| `Cache.Refresh` | server.js:41-122 | The fetch-and-transform step of a handler computes `Refreshed`: today's fetch, the route's transform, and for NBA yesterday's fetch, its transform and the concatenation |
| `Cache.FreshnessBoundary` | server.js:43-45 | A slot is fresh iff `now < lastFetch + 300000`, stale at exactly 300000, and answers iff fresh and its data is present |
| `Cache.FirstRequestRefetches` | server.js:12-25 | The initial slot (`data: null, lastFetch: 0`) never answers, so the first request per league refetches |
| `Cache.StoredSlotServes` | server.js:52-55 | A stored list, even an empty one, answers every request within five minutes of its timestamp |
| `Cache.SingleDayRefresh` | server.js:73-74 | `/mlb` and `/nfl` refreshes fail with the fetch error or yield the route's transform of today's body; yesterday plays no part |
| `Cache.NbaRefreshSucceeds` | server.js:98-106 | The NBA refresh succeeds iff both fetches succeeded and every event of both bodies is readable |
| `Cache.NbaRefreshOrder` | server.js:107-115 | A successful NBA refresh has length N + M: today's NFL-shaped list at the front, yesterday's after it |
| `Cache.NbaYesterdayFailure` | server.js:105-106 | A failed yesterday fetch fails the whole NBA refresh even when today's part succeeded |
| `Cache.ScoreCache.constructor` | server.js:12-25 | All three slots start as `data: null, lastFetch: 0` |
| `Cache.ScoreCache.Handle` | server.js:41-122 | Fresh slot with data: that list with hit = true, nothing changes. Otherwise a successful refresh replaces the slot whole with the list and the post-fetch time and answers it with hit = false; a failure answers the error body and leaves the slot. Other leagues' slots never change |
| `Examples.InProgressDisplayTime` | server.js:211-212 | `"7:30 PM - 2nd Qtr"` shows `"2nd Qtr"` |
| `Examples.DashBeforeSeparatorDisplayTime` | server.js:211-212 | A dash inside the first part does not move the cut: `"1-0 - 2nd"` shows `"2nd"` |
| `Scoreboard.PlainTwoPartDisplayTime` | server.js:211-212 | Two parts with no dash in either and no `P` in the second show the second part as it is |
| `Examples.FinalDisplayTime` | server.js:135-136 | `"Final"` shows `"Final"` |
| `Examples.MiddlePieceChosen` | server.js:211 | `"Sun - 1:00 PM - ESPN"` takes its time from the middle piece |
| `Examples.ClockTightened` | server.js:212 | `"1:00 PM"` tightens to `"1:00PM"` |
| `Examples.ThreePartDisplayTime` | server.js:172-173 | `"Sun - 1:00 PM - ESPN"` shows `"1:00PM"` |
| `Examples.MorningDisplayTime` | server.js:136 | `"Sun - 11:00 AM"` shows `"11:00 AM"`: AM is never tightened |
| `Examples.KickoffCompacted` | server.js:219 | The regex turns `"10/5 - 1:00 PM EDT"` into `"10/5 - 1PM EDT"` |
| `Examples.KickoffSeparatorCollapsed` | server.js:220 | The first `" - "` of `"10/5 - 1PM EDT"` becomes a space |
| `Examples.ScheduledLongStatus` | server.js:219-220 | The NFL long status of `"10/5 - 1:00 PM EDT"` is `"10/5 1PM EDT"` |
| `Examples.BarMeridiemRewritten` | server.js:219 | `[A|P]` admits a bar: `"8 |M"` becomes `"8|M"` |
| `Examples.OnlyFirstMeridiemRewritten` | server.js:219 | Without the `g` flag, `"1 PM 4 PM"` becomes `"1PM 4 PM"` |
| `Examples.ThirdQuarterCode` | server.js:228-229 | A live game in period 3 has status code `"Q3"` |

## Left out

- Express plumbing is not modelled: the app, the port, route registration, `res.setHeader` and `res.json`. The response is the `Response` datatype: a served list with its cache-hit flag, or the error body.
- The static `/` route is not modelled. It returns a constant and has no logic.
- Outbound HTTP and the provider URLs are not modelled. Each fetch is a `FetchOutcome` input: a failure message or a parsed body.
- The `date-and-time` calls that compute yesterday's `YYYYMMDD` date are not modelled. Yesterday's fetch outcome is an input.
- `Date.now()` and `new Date()` are not modelled. The request time `now` and the post-fetch time `storedAt` are parameters.
- Logging (`console.error`) is not modelled.
- Concurrency is not modelled. Requests are handled one at a time, so interleaved requests racing on the shared cache are not covered.
- JSON parsing of the provider body is not modelled. Events arrive as a datatype. Every object field is present and is a string or an integer.
- Only two malformed cases are representable: a missing `events` field, and an event without a first competition or without two competitors. A missing status object or a non-string detail cannot be expressed.
- The TypeError message that JavaScript would put in the error body is not modelled. The model carries an `Error` value instead: the upstream message, a missing `events` field, or the index of the first unreadable event.
- Scores are strings carried through unchanged. A numeric score in the JSON is not distinguished from a string.
- Periods are integers, assumed far below `1e21` and within JavaScript's exact integer range. JavaScript renders numbers from `1e21` up in exponent form (`"1e+21"`) and rounds integers above 2^53; neither is modelled, and `IntToDecimal` writes every integer in plain digits. A non-integer or missing `period` would render differently in the template literal and is not modelled either.
- The in-place `push` onto the local result arrays is modelled as reassigning a sequence. Aliasing of the list shared between the cache and the response is not modelled.
- Strings are sequences of Unicode scalar values, while JavaScript strings are sequences of UTF-16 code units. A lone surrogate, such as one from a JSON `\uD800` escape, cannot be represented. Every character a pattern here can match (the characters of `" - "` and `" PM"`, and those of the meridiem regex, whose `\s` includes non-ASCII whitespace such as U+00A0 and U+2028) is a single UTF-16 code unit and not a surrogate, so the cuts and rewrites are the same on the texts the model can hold.
- `ReplaceFirst` inserts its replacement text as it is. JavaScript also expands `$$`, `$&`, `` $` `` and `$'` in a replacement text, even with a string pattern. This is not modelled. The code's own replacements (`"PM"` and `" "`) contain no `$`, so they behave the same.
