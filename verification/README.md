# npm-pd scoring and listing core, in Dafny

npm-pd is a command-line tool that reports on npm packages from the npms.io
analytics service. This project models its two pieces of real logic.

- **Evaluation.** One package's collected metadata (`PackageCollected`)
  becomes quality, popularity and maintenance sub-scores. Quality covers
  carefulness, tests, health and branding. Popularity covers community
  interest and download acceleration. Maintenance covers release and commit
  frequency, open issues and whether the package looks finished. The
  quality sub-scores go through a piecewise-linear normaliser
  (`normalizeValue`).
- **Author/maintainer listing.** The tool fetches every 250-result page of
  a search, then filters by organisation scope, sorts by one of seven keys
  and truncates to a limit.

Files, one module each:

- `wrappers.dfy` (`Wrappers`): `Option`, `Result` and JavaScript
  truthiness of an optional string.
- `normalize.dfy` (`Normalize`): `normalizeValue` from
  `src/commands/evaluate/utils.ts`. Numbers are reals, so npm-pd's
  NaN/Infinity guard becomes "the two bracketing steps have the same value".
  `NormalizeValue`'s contract proves that this case never happens.
- `collected.dfy` (`Collected`): the collected record, with every optional
  field written as an `Option`. It also holds the first-window lookup that
  popularity and maintenance share (lodash `find`).
- `quality.dfy`, `popularity.dfy`, `maintenance.dfy`: the extractors. Each
  is a total function from the record to a record of sub-scores. The ones
  that throw on a missing time window return a `Result`.
- `publisher.dfy` (`Publisher`): the comparator table, `getScope`,
  `filter`, `sort` (an in-place sort of an array, then an in-place
  reverse), `limit`, `nextPage` (a loop over an abstract page service
  `search(offset, size)`) and their composition in `getPublisher`.

Calls into libraries the model cannot see are parameters or fields:

- `semver.gte(version, "1.0.0", true)` is a parameter
  `isStableVersion: string -> bool`.
- The `validRange`/`gtr` test for a loosely pinned range is a parameter
  `isUnlockedRange: string -> bool`.
- `url.parse(...).host` is the `host` of a `Url` value.
- `moment.utc(to).diff(from, 'd')` is the precomputed `days` of a
  `TimeRange`.
- `new Date(date).getTime()` is the integer `date` of a `Package`.

## Behaviour that follows the code

- A calibration with two steps of equal value does not raise. The chosen
  step is the last one whose value is at or below the input, so the next
  step always lies strictly above the input. The "Invalid value or steps"
  error therefore cannot fire for any real input (`Normalize.NormalizeValue`
  ensures `r.Ok?`). An error message alone might suggest otherwise.
- A sort key outside the seven is not in the type. npm-pd's
  `sorters[key]` table has no fallback: an unknown key would hand
  `undefined` to `Array.prototype.sort`, not the date comparator.
- With no `source` analysis, `health` returns all zeros. This check comes
  before the zero-dependency check that returns all ones.
- Without `reverse`, name and version come out ascending, and date and the
  scores come out descending. The name and version comparators compare `b`
  to `a`, and the list is then reversed (`Publisher.DefaultOrder`).
- An empty releases, commits or downloads array counts as present, so the
  extractor fails on the missing window rather than returning zeros.

## Model

| member | source | states |
|---|---|---|
| `Normalize.FindLastIndex` | src/commands/evaluate/utils.ts:7 | the index is -1 or names a step at or below the input, and every later step lies strictly above it |
| `Normalize.NormalizeValue` | src/commands/evaluate/utils.ts:6-21 | for non-empty steps the result is never the "Invalid value or steps" error, whatever the order of the steps |
| `Normalize.ClampLow` | src/commands/evaluate/utils.ts:7-10 | below every step the result is the first step's norm |
| `Normalize.ClampHigh` | src/commands/evaluate/utils.ts:11-13 | at or beyond the last step the result is the last step's norm |
| `Normalize.LineAtLow` | src/commands/evaluate/utils.ts:16 | the interpolation line passes through the lower step |
| `Normalize.Interpolates` | src/commands/evaluate/utils.ts:14-16 | for ascending steps and steps[i].value <= v < steps[i+1].value, the search selects i and the result is the straight line between the two steps; it is steps[i].norm when v is steps[i].value |
| `Normalize.InterpolationBracketed` | src/commands/evaluate/utils.ts:14-16 | an interpolated result lies in the closed interval between the two bracketing norms |
| `Normalize.LineBetween` | src/commands/evaluate/utils.ts:16 | between two steps the line stays between their norms |
| `Normalize.TwoSteps` | src/commands/evaluate/utils.ts:7-16 | for a two-step calibration (a, na), (b, nb) with a < b: na at or below a, nb from b on, the line in between, never outside [na, nb] |
| `Normalize.Calibrate` | src/commands/evaluate/utils.ts:6-21 | the two-step normalisation the extractors call, with its clamping, interpolation and bounds |
| `Normalize.FromZero` | src/commands/evaluate/quality.ts:8-11 | a calibration from (0, 0) to (b, top) maps a non-negative v to min(v, b) / b of top |
| `Normalize.ReadmeCalibration` | src/commands/evaluate/quality.ts:8-11 | for steps (0, 0), (400, 1): inputs at or below 0 give 0, inputs from 400 on give 1, inputs in between give v / 400 |
| `Collected.FindWindowFrom` | src/commands/evaluate/maintenance.ts:16-19 | the result is the first entry from the start index whose span is exactly the given number of days, or none when no entry has that span |
| `Collected.FindWindow` | src/commands/evaluate/popularity.ts:23-26 | a window is found exactly when some entry spans the given days, and then it is the first entry of the series with that span |
| `Quality.ReadmeEvaluation` | src/commands/evaluate/quality.ts:8-11 | the README score is min(size, 400) / 400 and lies in [0, 1] |
| `Quality.Carefulness` | src/commands/evaluate/quality.ts:7-21 | license, linters, ignore, changelog, not-deprecated and stable are 0 or 1, each 1 exactly under its condition (ignore: npmignore or selective files; not-deprecated: no deprecation message); README is min(size, 400) / 400 and 0 without `source` analysis |
| `Quality.TestsEvaluation` | src/commands/evaluate/quality.ts:31-34 | the tests score is min(size, 400) / 400 of a ceiling that is 1 with a test script and 0.5 without, so at most that ceiling |
| `Quality.StatusFold` | src/commands/evaluate/quality.ts:36-48 | the reduce over the first statuses of a list of length total is never negative and at most (statuses so far) / total |
| `Quality.StatusFoldIsShare` | src/commands/evaluate/quality.ts:36-48 | the reduce over statuses equals (successes + 0.3 pendings) / length |
| `Quality.SuccessAndPendingBound` | src/commands/evaluate/quality.ts:36-48 | successes and pendings together never outnumber the statuses |
| `Quality.StatusScoreBounded` | src/commands/evaluate/quality.ts:36-48 | the weighted share of a non-empty status list lies in [0, 1] |
| `Quality.StatusEvaluationIsShare` | src/commands/evaluate/quality.ts:36-48 | the CI score npm-pd computes is the weighted share, 0 for no statuses, always in [0, 1] |
| `Quality.Tests` | src/commands/evaluate/quality.ts:23-54 | without `source` analysis all three scores are 0; with it the tests score is bounded by its ceiling, the status score is the weighted share in [0, 1] and coverage defaults to 0 |
| `Quality.OutdatedCount` | src/commands/evaluate/quality.ts:75-77 | the outdated count is 0 exactly when the analysis lists no outdated dependencies (absent or empty) |
| `Quality.VulnerabilitiesCount` | src/commands/evaluate/quality.ts:80-82 | an array counts its entries; the count is 0 exactly when there is no data, an empty array, or a non-array value with no dependencies |
| `Quality.UnlockedCount` | src/commands/evaluate/quality.ts:86-91 | 0 with a shrinkwrap; otherwise at most the number of dependencies, and 0 exactly when no dependency's range is loose |
| `Quality.PenaltyEvaluation` | src/commands/evaluate/quality.ts:93-100 | an outdated or vulnerable count scores in [0, 1]: 1 - count / max(2, dependencies / 4) below that threshold (so 1 at count 0), and 0 once the count reaches it |
| `Quality.UnlockedEvaluation` | src/commands/evaluate/quality.ts:102 | the unlocked score is 1 / (unlocked + 1), always in (0, 1] |
| `Quality.Health` | src/commands/evaluate/quality.ts:56-109 | no `source` analysis gives all zeros; no dependencies gives all ones; a shrinkwrap gives unlocked 1; otherwise the outdated and vulnerabilities scores are the penalty evaluation of their counts (in [0, 1], with its end points) and unlocked = 1 / (loose ranges + 1), in (0, 1] |
| `Quality.BadgesEvaluation` | src/commands/evaluate/quality.ts:115-119 | the badges score is min(badges, 4) / 4 and lies in [0, 1] |
| `Quality.Branding` | src/commands/evaluate/quality.ts:111-124 | the homepage score is 1 exactly when the repository host and the homepage host are both non-empty and differ, else 0; badges as above |
| `Popularity.CommunityInterest` | src/commands/evaluate/popularity.ts:5-12 | stars add GitHub and npm stars, each 0 when its data is absent; forks, subscribers and contributors are 0 without GitHub data; contributors is the list length, 0 without a list |
| `Popularity.DownloadsAcceleration` | src/commands/evaluate/popularity.ts:14-39 | no downloads series gives three zeros; with one, the result is an error exactly when the 30-, 90-, 180- or 365-day window is missing, else each acceleration is the difference of two windows' daily means |
| `Popularity.AccelerationsTelescope` | src/commands/evaluate/popularity.ts:30-38 | short + mid + long equals the 30-day mean minus the 365-day mean |
| `Popularity.ShortTermExample` | src/commands/evaluate/popularity.ts:23-38 | windows with counts 5, 15, 20 and 40 give a short-term acceleration of exactly 0 |
| `Maintenance.ReleasesFrequency` | src/commands/evaluate/maintenance.ts:6-29 | no releases gives four zeros; with a series, the result is an error exactly when the 30-, 180-, 365- or 730-day window is missing, else each rate is count * 90 / days of the first such window, never negative |
| `Maintenance.CommitsFrequency` | src/commands/evaluate/maintenance.ts:31-51 | no commits gives three zeros; with a series, the result is an error exactly when the 30-, 180- or 365-day window is missing, else each rate is count * 30 / days, never negative |
| `Maintenance.OpenIssues` | src/commands/evaluate/maintenance.ts:53-64 | total issues is nonzero exactly when issues are present, enabled and counted, and then it is their count |
| `Maintenance.IsFinished` | src/commands/evaluate/maintenance.ts:66-80 | all six values are 0 or 1; each flag is 1 exactly under its condition (few issues: an open count below 15, absent counts as Infinity); finished is 1 exactly when all five flags are 1 |
| `Maintenance.FinishedExamples` | src/commands/evaluate/maintenance.ts:66-80 | an unstable version or no test script means not finished; a stable, undeprecated package with README, test script and under 15 open issues is finished |
| `Publisher.Sorter` | src/publisher.ts:16-26 | per key, a comparison of at most 0 (a may precede b) means: names and versions with a's string at or after b's, dates and the four scores with a's value at or below b's |
| `Publisher.KeyOf` | src/publisher.ts:53 | the sort key is the one the options name, `date` when they name none |
| `Publisher.LocaleCompare` | src/publisher.ts:19-20 | the string comparison returns -1, 0 or 1, and 0 exactly for equal strings |
| `Publisher.LocaleCompareFlip` | src/publisher.ts:19-20 | swapping the operands negates the comparison |
| `Publisher.SorterMeaning` | src/publisher.ts:16-26 | with the name and version comparators a result may precede another when its string is at or after the other's; with date, quality, popularity, maintenance and score when its value is at or below the other's |
| `Publisher.SorterTotal` | src/publisher.ts:16-26 | every comparator in the table is total: of any two results one may precede the other |
| `Publisher.Reversed` | src/publisher.ts:57 | reversal keeps the length and the multiset of elements |
| `Publisher.ReversedOrdered` | src/publisher.ts:53-58 | reversing a list in comparator order gives one in the opposite order |
| `Publisher.ReverseInPlace` | src/publisher.ts:57 | after `reverse` the array holds its old contents back to front |
| `Publisher.Insert` | src/publisher.ts:53 | one insertion step leaves a[..i+1] ordered, holding the same elements as before, and leaves a[i+1..] as it was |
| `Publisher.Sink` | src/publisher.ts:53 | moving a[i] left leaves a[..i+1] ordered, every element after i in place and the array's multiset unchanged |
| `Publisher.SortInPlace` | src/publisher.ts:53 | with a total comparator, the sorted array is a permutation of the old one with every adjacent pair in order |
| `Publisher.Sort` | src/publisher.ts:52-59 | the result is a permutation in the comparator's order (default key date) when `reverse` is set, and in the opposite order when it is not |
| `Publisher.GetScope` | src/publisher.ts:28-34 | exactly one leading '@' is removed; other strings are unchanged |
| `Publisher.KeepScope` | src/publisher.ts:63 | the kept results are an order-preserving subsequence holding exactly the input's results in the scope, each as often as in the input |
| `Publisher.Filter` | src/publisher.ts:61-67 | without an organisation (absent or empty) the results pass unchanged; with one, the result is the order-preserving subsequence of results whose scope is the organisation's, each kept as often as it occurs |
| `Publisher.OrgAtSignIgnored` | src/publisher.ts:28-67 | organisation "@foo" and organisation "foo" filter identically |
| `Publisher.Limit` | src/publisher.ts:69-75 | the result is a prefix of the input of length min(limit, length) for a nonzero limit, and the whole input otherwise |
| `Publisher.Process` | src/publisher.ts:77-81 | the rows are the limited prefix of an ordering of the filtered results in the presented order |
| `Publisher.PresentedRows` | src/publisher.ts:79 | the rows are no more than the filtered results and no more than a set limit (exactly min(limit, filtered) of them); every row comes from the organisation's scope; the rows are in the presented order |
| `Publisher.DefaultOrder` | src/publisher.ts:19-25 | without `reverse`, names and versions come out ascending, dates and scores descending |
| `Publisher.NextPage` | src/publisher.ts:38-50 | the result is pages 0 to m concatenated, requested at offsets k * 250 with size 250, where m is the first page with fewer than 250 results |
| `Publisher.AccumulatedLength` | src/publisher.ts:38-50 | when every page before the short page m is full, the result has m * 250 plus that page's results |
| `Publisher.GetPublisher` | src/publisher.ts:77-81 | the rows are what filter, sort and limit present for the concatenation of all pages up to the first short one |

## Left out

- Network and terminal. `getSearch` and `getPackage` are not modelled: the
  listing takes the search service as a parameter, and the extractors take
  the collected record as input. Also left out: the report and table
  rendering in src/commands/evaluate/index.ts and `formatPublisher`, the
  `ora` spinner, chalk colours, and the commander wiring in
  src/commands/author.ts, src/commands/maintainer.ts,
  src/commands/index.ts and src/bin/index.ts.
- `setDefaults`: it adds a `deprecated: false` option that nothing reads.
- Floating point. Numbers are reals. NaN, infinities and rounding are not
  modelled. `count / (30 / 90)` is exact, and the NaN/Infinity guard of
  `normalizeValue` is the zero-span case.
- Publisher.LocaleCompare: compares by character code, not by the
  locale-aware collation of `localeCompare`. Orders differ for punctuation
  and letter case.
- Library semantics. `semver.gte` throws on an invalid version, and
  `new Date` can give NaN on a malformed date. Neither is modelled: version
  stability and the unlocked-range test are parameters, and dates are
  integers.
- Publisher.NextPage: requires that some page comes back short. If the
  search service returns full pages forever, npm-pd recurses without end;
  no model of that behaviour is given. The asynchronous Promise chaining
  is a sequential loop.
- Publisher.Sort: the contract states a permutation and the order, but not
  stability. The insertion sort used is stable like the engine's sort, but
  which of several equal results is cut off by the limit is not stated.
- Publisher.SortInPlace: states a permutation and adjacent order, but not
  stability, for the same reason as Publisher.Sort.
- Publisher.Process: sorts a fresh copy of the filtered results. Without an
  organisation, npm-pd's `filter` returns the caller's own array, and
  `sort` reorders that array in place. That aliasing is not modelled.
- Publisher.Limit: takes the limit as the number its type declares, so
  `Limit(ps, Some(0))` is the whole input. The command line actually hands
  `-l` over as a string: "0" is truthy, so `slice(0, "0")` returns no rows,
  and a negative count would drop rows from the end. Neither coercion is
  modelled.
- The collected record's `source.files` is always present when `source`
  is. npm-pd reads `testsSize` and `hasShrinkwrap` from it without a
  default.
