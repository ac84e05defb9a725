# admira-go ingestion and channel metrics, in Dafny

This project models the ingestion-and-aggregation engine of admira-go and proves
properties of that model:

- **`GetJSON`** (`Clients`): the retry state machine. At most four requests, with
  waits of 300, 600 and 1200 ms. A 2xx returns its decode result and a 4xx returns
  its status at once. A transport error or any other status is retried. A
  cancellation during a wait ends the fetch.
- **`ETL.Run`** (`Etl`): both feeds are fetched, then every entry is normalised.
  Text is trimmed, channel, stage and UTM tags are lower-cased, and negative numbers
  are clamped to 0. Entries dated before `since` are dropped (the bound is
  inclusive). The rest are upserted.
- **The store** (`Store`, `Model`): two maps keyed by natural keys. An ad's key is
  `YYYY-MM-DD|campaign_id|channel`; an opportunity's key is its id. Upserts are
  last-write-wins. Snapshots return every stored record once.
- **`ChannelMetrics`** (`Join`, `Metrics`):
  - index the in-window opportunities by lower-cased UTM triple;
  - keep the ads that pass the date window and the five optional filters;
  - group them by (day, channel, campaign id);
  - join each ad to the bucket of its own triple, falling back to every bucket of
    its campaign when that bucket is empty and the ad's `utm_campaign` is not;
  - count `lead`, `opportunity` and `closed_won`, and add the won amounts;
  - derive CPC, CPA, the two conversion rates and ROAS, each 0 on a zero
    denominator;
  - cut the page.
- **The time helpers** (`TimeUtil`, `Text`): `ParseYMD` and `ParseRFC3339` (both
  return the zero time on bad input), `NonNegInt`, `NonNegFloat` and `SafeDiv`, and
  the string functions the core calls (`TrimSpace`, `ToLower`, `EqualFold`).

Representation choices:

- An instant is a count of nanoseconds since 0001-01-01T00:00:00Z, so Go's zero
  time is 0. A day is a valid calendar date with a four-digit year.
- `float64` is modelled as `real`, and Go `int` as unbounded `int`.
- The fetch results, the network's behaviour on each attempt and the cancellation
  of each wait are parameters.
- Where Go iterates a map, the model fixes one order:
  - The CRM index keeps its keys in first-insertion order. `Join.FallbackAnyOrder`
    and `Metrics.FallbackTallyAnyOrder` show that the fallback gathers the same
    records, and the same counts and revenue, for every order of the keys.
  - Output rows come in the order their group first appears among the ads. The
    lemmas about rows (`Metrics.AllRowsAreGroups`, `Metrics.AllRowsCoverRetained`,
    `Metrics.AllRowKeysDistinct`) do not depend on that order.

Two behaviours of the code worth knowing:

- `internal/ingest/etl.go:58-59` fetches both feeds before any upsert, so a
  failure of either fetch leaves the store unchanged.
- `internal/ingest/clients.go:36-38` returns every 4xx at once, 429 included.

## Model

| member | source | states |
|---|---|---|
| Text.TrimSpace | internal/ingest/etl.go:67 | the trimmed field neither starts nor ends with whitespace |
| Text.TrimSpaceIsInfix | internal/ingest/etl.go:67 | `TrimSpace` cuts a run of whitespace from each end and nothing else: the result is an infix with only whitespace around it |
| Text.TrimSpaceIdempotent | internal/ingest/etl.go:67 | trimming a trimmed field changes nothing |
| Text.ToLower | internal/ingest/etl.go:68 | lower-casing keeps the length; `Text.ToLowerAt` says each character is mapped on its own |
| Text.ToLowerAt | internal/ingest/etl.go:68 | the i-th character of the lower-cased text is the lower-cased i-th character |
| Text.EqualFoldIffLowerEqual | internal/metrics/calc.go:43 | `EqualFold`, which walks both strings in step, holds exactly when the lower-cased strings are equal |
| Text.NormalizeIsNormalized | internal/ingest/etl.go:68-74 | the trim-then-lower normalisation yields a stored-form value, folds equal to the trimmed input, and is idempotent |
| Text.EqualFoldNormalized | internal/metrics/calc.go:43 | against a stored-form value, case-insensitive equality is equality after lower-casing the other side |
| TimeUtil.NonNegInt | internal/util/timeutil.go:11 | the result is never negative and equals the input whenever the input is not negative |
| TimeUtil.NonNegReal | internal/util/timeutil.go:12 | the result is never negative and equals the input whenever the input is not negative |
| TimeUtil.SafeDiv | internal/util/timeutil.go:13 | a zero denominator gives 0; otherwise the result times the denominator is the numerator |
| TimeUtil.ParseYMD | internal/util/timeutil.go:5-7 | text in `YYYY-MM-DD` form parses to a day that formats back to that text; any other text gives the zero day |
| TimeUtil.ParseFormatYMD | internal/util/timeutil.go:5-7 | formatting any day gives parseable text that parses back to that day |
| TimeUtil.FormatYMDInjective | internal/metrics/calc.go:64 | two days have the same `YYYY-MM-DD` form exactly when they are the same day |
| TimeUtil.ParseYMDExact | internal/util/timeutil.go:5-7 | text parses to a day exactly when it is some day's `YYYY-MM-DD` form |
| TimeUtil.ScanRFC3339 | internal/util/timeutil.go:8-10 | a timestamp read from RFC 3339 text has an in-range clock, fraction and whole-minute offset under a day |
| TimeUtil.ParseRFC3339 | internal/util/timeutil.go:8-10 | text that is not an RFC 3339 timestamp gives the zero time |
| TimeUtil.ClockTextScans | internal/util/timeutil.go:8-10 | the `YYYY-MM-DDThh:mm:ss` prefix of a formatted timestamp scans back to its fields |
| TimeUtil.FractionRoundTrip | internal/util/timeutil.go:8-10 | the fraction of a formatted timestamp reads back as the same nanoseconds and leaves the zone |
| TimeUtil.ZoneRoundTrip | internal/util/timeutil.go:8-10 | a formatted zone (`Z` or `±hh:mm`) reads back as the same offset |
| TimeUtil.ScanFormatRFC3339 | internal/util/timeutil.go:8-10 | every valid timestamp survives formatting and parsing, and parses to the instant it denotes |
| TimeUtil.FractionNanosShort | internal/util/timeutil.go:8-10 | a fraction of k <= 9 digits counts 10^(9-k) ns per unit, so the first k digits of an exact nanosecond count read back as that count |
| TimeUtil.FractionNanosTruncates | internal/util/timeutil.go:8-10 | fraction digits past the ninth are dropped, not rounded |
| TimeUtil.HalfSecondFraction | internal/util/timeutil.go:8-10 | the fraction `.5` is 500000000 ns |
| TimeUtil.ParseZoneSigned | internal/util/timeutil.go:8-10 | `+hh:mm` is (hh*60+mm)*60 seconds east of UTC and `-hh:mm` the same amount west |
| TimeUtil.ZeroOffsetSpellings | internal/util/timeutil.go:8-10 | `Z`, `+00:00` and `-00:00` all read as offset 0 |
| TimeUtil.ScanAnySpelling | internal/util/timeutil.go:8-10 | a timestamp written with any exact fraction of 0 to 9 digits and any spelling of its offset scans back to that timestamp and parses to its instant |
| TimeUtil.ParseZoneShape | internal/util/timeutil.go:8-10 | an accepted zone is `Z` or a sign, two digits, `:` and two digits |
| TimeUtil.ScanRFC3339Spelled | internal/util/timeutil.go:8-10 | every accepted text is the clock text of the stamp read, then fraction digits that read as its nanoseconds, then a spelling of its offset |
| TimeUtil.ScanOfSpelling | internal/util/timeutil.go:8-10 | a stamp's clock text, any fraction digits that read as its nanoseconds and any spelling of its offset scan back to that stamp |
| TimeUtil.ScanRFC3339Exact | internal/util/timeutil.go:8-10 | text scans to a stamp exactly when it is that stamp's clock, fraction digits and zone spelling; any other text is rejected and so parses to the zero time |
| TimeUtil.MidnightUTC | internal/util/timeutil.go:5-10 | `YYYY-MM-DDT00:00:00Z` parses to the same instant `ParseYMD` gives for `YYYY-MM-DD` |
| Model.AdKeyIsNaturalKey | internal/model/types.go:29 | ads with the same date, campaign id and channel share a key; when campaign ids hold no bar character, ads share a key only if they share all three |
| Model.AdKeyCollision | internal/model/types.go:29 | with a bar character inside a campaign id, two different natural keys produce the same ad key |
| Store.UpsertAds | internal/store/memory.go:22-25 | afterwards the ad is under its key; every other key and the CRM map are as before; the map grows only for a new key |
| Store.UpsertCRM | internal/store/memory.go:26-29 | afterwards the opportunity is under its id; every other key and the ads map are as before; the map grows only for a new id |
| Store.UpsertAdsIdempotent | internal/store/memory.go:22-25 | upserting the same ad twice is upserting it once |
| Store.UpsertCRMIdempotent | internal/store/memory.go:26-29 | upserting the same opportunity twice is upserting it once |
| Store.LaterCRMOverwrites | internal/store/memory.go:26-29 | a later record with the same id, such as a stage change, replaces the earlier one entirely |
| Store.UpsertSeqLastWins | internal/store/memory.go:22-29 | after a run of upserts a key holds the last value written under it; an unwritten key keeps its old entry or stays absent |
| Store.UpsertSeqIdempotent | internal/store/memory.go:22-29 | repeating a run of upserts changes nothing |
| Store.SelectedLastWins | internal/ingest/etl.go:62-77 | after an ingestion loop, a kept entry that no later entry shadows is what its key holds |
| Store.SelectedUntouched | internal/ingest/etl.go:62-77 | after an ingestion loop, a key no kept entry has is exactly as before |
| Store.Values | internal/store/memory.go:31-36 | a snapshot has one element per key; every element is a stored value and every stored value appears |
| Store.AllAds | internal/store/memory.go:31-36 | the snapshot holds exactly the stored ads, one per key, with pairwise distinct keys |
| Store.AllCRM | internal/store/memory.go:37-42 | the snapshot holds exactly the stored opportunities, one per id, with pairwise distinct ids |
| Store.SnapshotAfterUpsert | internal/store/memory.go:22-36 | a snapshot after an upsert holds that ad and no other ad with its key |
| Clients.Loop | internal/ingest/clients.go:24-50 | from any attempt on: the attempt count stays within four; each wait follows the schedule; only a cancelled fetch ends on a wait |
| Clients.GetJSON | internal/ingest/clients.go:20-51 | one to four requests; the i-th wait lasts `Backoff[i]`; no wait follows the last request; only a cancelled fetch ends on an interrupted wait |
| Clients.LoopOutcome | internal/ingest/clients.go:24-50 | after retryable, uncancelled attempts, the next attempt decides the outcome by its class |
| Clients.GetJSONOutcome | internal/ingest/clients.go:24-50 | the first 2xx returns its decode result, the first 4xx its status, a cancelled wait `Cancelled`; if all four attempts are retryable, the fourth one's error |
| Clients.AlwaysUnavailable | internal/ingest/clients.go:22-50 | a source that always answers 503 is asked four times, waits 300, 600 and 1200 ms, and its 503 is returned |
| Clients.NotFoundIsFinal | internal/ingest/clients.go:36-38 | a 404 on the first attempt ends the fetch after one request with no wait |
| Etl.NormalizeAd | internal/ingest/etl.go:63-75 | the entry comes out in stored form, dated by `ParseYMD`, with the campaign id trimmed and negative counts and cost clamped to 0 |
| Etl.NormalizeCrm | internal/ingest/etl.go:80-91 | the entry comes out in stored form, with the opportunity id and contact email trimmed, created at `ParseRFC3339` of its text, with a negative amount clamped to 0 |
| Etl.NormalizeAdFolds | internal/ingest/etl.go:68-74 | channel and UTM tags change only by case and outer whitespace |
| Etl.NormalizeCrmFolds | internal/ingest/etl.go:85-90 | stage and UTM tags change only by case and outer whitespace |
| Etl.NormalizeAdStable | internal/ingest/etl.go:65-75 | feeding a normalised entry back through normalisation gives it back unchanged |
| Etl.UpsertAdsWellFormed | internal/ingest/etl.go:76 | upserting a stored-form ad into a well-formed store keeps it well-formed |
| Etl.UpsertCrmWellFormed | internal/ingest/etl.go:92 | upserting a stored-form opportunity into a well-formed store keeps it well-formed |
| Etl.IngestAds | internal/ingest/etl.go:62-77 | the ads map becomes the result of upserting the kept, normalised entries in feed order; CRM is untouched; well-formedness is kept |
| Etl.IngestCrm | internal/ingest/etl.go:79-93 | the CRM map becomes the result of upserting the kept, normalised entries in feed order; ads are untouched; well-formedness is kept |
| Etl.Run | internal/ingest/etl.go:54-95 | a failed ads fetch, then a failed CRM fetch, is returned with the store unchanged; no error exactly when both fetches succeed; well-formedness is kept |
| Etl.RunIdempotent | internal/ingest/etl.go:54-95 | running again on the same payloads leaves the store as the first run left it |
| Etl.SinceInclusiveAds | internal/ingest/etl.go:63-64 | an ad dated exactly `since` is stored; one dated before it leaves its key as it was |
| Etl.AdAtSinceKept | internal/ingest/etl.go:63-64 | an ad dated exactly `since`, last with its key, is what the key holds afterwards |
| Etl.AdBeforeSinceSkipped | internal/ingest/etl.go:63-64 | a dropped ad whose key no other entry shares leaves that key as it was |
| Etl.SinceInclusiveCrm | internal/ingest/etl.go:80-81 | an opportunity created exactly at `since` is stored; one created before it leaves its id as it was |
| Etl.CrmAtSinceKept | internal/ingest/etl.go:80-81 | an opportunity created exactly at `since`, last with its id, is what the id holds afterwards |
| Etl.CrmBeforeSinceSkipped | internal/ingest/etl.go:80-81 | a dropped opportunity whose id no other entry shares leaves that id as it was |
| Etl.RunFromEmptyIsWellFormed | internal/ingest/etl.go:54-95 | from a fresh store, every stored record is in stored form, with no negative count, cost or amount |
| Etl.WellFormedClamps | internal/ingest/etl.go:69-71 | a well-formed store holds no negative count, cost or amount |
| Join.InRangeBounds | internal/metrics/calc.go:38-42 | a time is in the window exactly when it is not before `from` and not after `to`: both bounds are inclusive, and a missing bound leaves that side open |
| Join.LikeSpec | internal/metrics/calc.go:43 | a filter matches exactly when it is empty or equals the value once both are lower-cased |
| Join.BuildIndex | internal/metrics/calc.go:48-53 | the index's keys are distinct and are exactly the keys with a bucket |
| Join.LookupIsExactFilter | internal/metrics/calc.go:48-53 | each bucket is exactly the in-window opportunities with that lower-cased triple, in feed order |
| Join.IndexKeysCover | internal/metrics/calc.go:49-53 | every in-window opportunity's key is an index key |
| Join.FallbackIsFallbackOf | internal/metrics/calc.go:78-82 | the fallback over the index equals the same walk over the feed |
| Join.FallbackOfSnoc | internal/metrics/calc.go:78-82 | one more feed record joins the fallback once exactly when it is in-window with an index key of the ad's campaign |
| Join.FallbackOfIsCampaign | internal/metrics/calc.go:78-82 | over distinct keys covering the window, the fallback holds the campaign's in-window opportunities, each once |
| Join.FallbackAnyOrder | internal/metrics/calc.go:78-82 | whatever order the map's keys are visited in, the fallback holds the same opportunities, each once |
| Join.MatchesSpec | internal/metrics/calc.go:75-83 | the exact bucket is taken unless it is empty and the campaign is set; then the fallback holds the campaign's in-window opportunities |
| Join.ExactFilterMembers | internal/metrics/calc.go:50-51 | every record of a bucket is in-window and carries that bucket's key |
| Join.ExactFilterHas | internal/metrics/calc.go:49-53 | every in-window opportunity is in the bucket of its own key |
| Join.UnloweredAdMissesExact | internal/metrics/calc.go:75 | an ad whose campaign tag is not already lower case never joins exactly, because the lookup does not lower-case the ad's tags |
| Join.LoweredAdJoinsCaseInsensitively | internal/metrics/calc.go:75 | for an ad with stored-form tags, an in-window opportunity joins exactly when all three tags fold equal |
| Text.ToLowerIdempotent | internal/metrics/calc.go:51 | lower-casing a lower-cased key changes nothing |
| Metrics.GroupOfIsFormattedKey | internal/metrics/calc.go:64 | grouping by day is the same as grouping by the formatted `YYYY-MM-DD` string |
| Metrics.StageDelta | internal/metrics/calc.go:84-95 | an in-window `lead`, `opportunity` or `closed_won` adds one to its counter; only `closed_won` adds its amount; anything else adds nothing |
| Metrics.TallyCounts | internal/metrics/calc.go:84-95 | an ad's counters are the numbers of its in-window matches at each stage, and revenue is the sum of their won amounts |
| Metrics.StageCountSnoc | internal/metrics/calc.go:86-92 | one more match raises its stage's count by one exactly when it is in-window at that stage |
| Metrics.WonRevenueSnoc | internal/metrics/calc.go:91-93 | one more match adds its amount to revenue exactly when it is an in-window `closed_won` |
| Metrics.OtherStageIgnored | internal/metrics/calc.go:86-94 | a match at any other stage leaves the counters unchanged |
| Metrics.TallyAppend | internal/metrics/calc.go:84-95 | tallying two runs of matches back to back adds their tallies |
| Metrics.TallyPermutation | internal/metrics/calc.go:84-95 | the tally depends only on which matches there are, not on their order |
| Metrics.FallbackTallyAnyOrder | internal/metrics/calc.go:78-95 | every key order of the fallback gives the same counts and revenue |
| Metrics.Accumulate | internal/metrics/calc.go:59-72 | groups are opened once each, and the groups with totals are exactly the groups listed |
| Metrics.AccumulateSpec | internal/metrics/calc.go:59-96 | a group exists exactly when some retained ad has its key; its totals are the sum over those ads of their numbers and their matches' tallies |
| Metrics.MembersAreRetained | internal/metrics/calc.go:59-64 | every ad counted in a group passed the window and the filters and has that group's key |
| Metrics.RetainedIsMember | internal/metrics/calc.go:59-64 | every ad that passes the window and the filters is counted in its group |
| Metrics.SkippedAdsContributeNothing | internal/metrics/calc.go:60-62 | dropping the ads that fail the window or a filter changes no group and no total |
| Metrics.Derive | internal/metrics/calc.go:100-106 | each ratio is 0 on a zero denominator; otherwise the ratio times its denominator is its numerator |
| Metrics.RowsOfAt | internal/metrics/calc.go:99-107 | the i-th row is the i-th group with its totals and derived ratios |
| Metrics.AllRowsAreGroups | internal/metrics/calc.go:56-107 | every row is the derivation of a group that has at least one retained ad, with that group's totals |
| Metrics.AllRowsCoverRetained | internal/metrics/calc.go:56-107 | every retained ad's group appears as a row carrying that group's totals |
| Metrics.AllRowKeysDistinct | internal/metrics/calc.go:56-107 | no two rows share (date, channel, campaign id) |
| Metrics.AccumulateRepeated | internal/metrics/calc.go:59-72 | an ad listed twice opens one group and adds its totals twice |
| Metrics.DuplicateAdCountsTwice | internal/metrics/calc.go:59-95 | an ad listed twice gives one row with twice the clicks and twice each joined stage count and revenue |
| Metrics.Paginate | internal/metrics/calc.go:109-114 | an offset past the end gives nothing; limit <= 0 gives the rest; otherwise the run of min(limit, rest) rows starting at the offset |
| Metrics.PaginateAt | internal/metrics/calc.go:109-114 | the i-th row of a page is row offset + i |
| Metrics.ChannelMetrics | internal/metrics/calc.go:45-115 | an offset past the end gives no rows; a limit <= 0 gives every row from the offset on; a positive limit gives min(limit, rows left) rows; the i-th returned row is row offset + i of all rows |
| Metrics.OneAdThreeStages | internal/metrics/calc.go:45-115 | one ad with one lead, one opportunity and one won deal on its tags gives one row, one of each stage, the won amount as revenue, and non-zero CPC and ROAS |
| Metrics.BasicScenario | test/metrics_calc_test.go:13-29 | the repository's metrics test: one row, one `closed_won`, revenue 5000, non-zero CPC and ROAS |

## Left out

- Text.ToLower: maps ASCII letters only. Go's `strings.ToLower` and `strings.EqualFold` also fold non-ASCII letters, which would need Unicode tables.
- TimeUtil.ParseRFC3339: reads the strict form `YYYY-MM-DDThh:mm:ss[.fraction](Z|±hh:mm)` only. Go's parser also accepts some lenient spellings: a one-digit hour, a comma before the fraction, and a zone offset with hour 24 or minute 60. The model gives those the zero time. So when `since` is later than the zero time, a CRM record with such a `created_at` is dropped, where Go keeps it unless its time is before `since`.
- Floating point: `float64` sums, ratios and clamps are exact `real` arithmetic. Rounding, NaN and infinities are not modelled.
- Integer overflow: Go `int` sums are unbounded integers here.
- Metrics.Paginate: `start + f.Limit` (internal/metrics/calc.go:112) wraps to a negative number in Go for a limit near the largest `int`, and the slice then panics. The model returns the rows from the offset to the end instead.
- Map iteration order: the model fixes one order for the CRM index and for the output rows (see above); store snapshots may come in any order. Row order before pagination is therefore one of Go's possible orders, not all of them.
- JSON decoding and the envelope structs: `Run` takes the decoded entries, or the fetch error, as parameters. `GetJSON` receives each 2xx body as an already-decoded result.
- Clients.GetJSON: the error for a status carries the code, not Go's status-line text.
- Network, timers and the context: the outcome of each attempt and whether each wait was cancelled are inputs. A context cancelled during a request appears as that attempt's transport error.
- The store's read/write lock and concurrent requests: each store operation is one atomic step.
- `NewHTTPClient`'s timeout, the HTTP router and middleware, and `cmd/api/main.go` are not part of this model.
- Metrics.ChannelMetrics: requires a non-negative offset. Go's slice expression panics on a negative one, which the model does not represent.
