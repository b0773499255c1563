/**
 * The collected-metadata record the extractors read (npms-io `PackageCollected`),
 * with every optional field explicit, and the one lookup they share: the
 * first entry of a time series whose span is a given number of days.
 */
module Collected {
  import opened Wrappers

  /**
   * A count of events inside a window. `days` is the whole-day span from the
   * window's `from` to its `to` (what moment's `diff(..., 'd')` reports).
   */
  datatype TimeRange = TimeRange(days: int, count: nat)

  /** A URL reduced to the host url.parse reports for it (None when it has none). */
  datatype Url = Url(host: Option<string>)

  datatype Metadata = Metadata(
    name: string,
    version: string,
    license: Option<string>,
    deprecated: Option<string>,
    hasSelectiveFiles: bool,
    hasTestScript: bool,
    dependencies: Option<map<string, string>>,  // package name to declared range
    readme: Option<string>,
    releases: Option<seq<TimeRange>>,
    repository: Option<Url>,                    // metadata.repository.url
    homepage: Option<Url>)                      // metadata.links.homepage

  datatype Files = Files(
    readmeSize: nat,
    testsSize: nat,
    hasNpmIgnore: bool,
    hasChangelog: bool,
    hasShrinkwrap: bool)

  /** `source.vulnerabilities`: absent, an array, or some other truthy value. */
  datatype Vulnerabilities = NoVulnerabilityData | VulnerabilityList(entries: seq<string>) | VulnerabilityFlag

  datatype Source = Source(
    files: Files,
    linters: Option<seq<string>>,
    coverage: Option<real>,
    outdatedDependencies: Option<set<string>>,  // the keys of the outdated-dependencies object
    vulnerabilities: Vulnerabilities,
    badges: Option<seq<string>>)

  /** A CI status; `state` is "success", "pending", "error", "failure" or anything else. */
  datatype Status = Status(state: string)

  datatype Issues = Issues(isDisabled: bool, count: nat, openCount: Option<nat>)

  datatype GitHub = GitHub(
    starsCount: nat,
    forksCount: nat,
    subscribersCount: nat,
    contributors: Option<seq<string>>,
    commits: Option<seq<TimeRange>>,
    issues: Option<Issues>,
    statuses: Option<seq<Status>>,
    homepage: Option<Url>)

  datatype Npm = Npm(starsCount: nat, downloads: Option<seq<TimeRange>>)

  datatype PackageCollected = PackageCollected(
    metadata: Metadata,
    source: Option<Source>,
    github: Option<GitHub>,
    npm: Option<Npm>)

  /** A 0/1 score. */
  predicate IsFlag(x: real)
  {
    x == 0.0 || x == 1.0
  }

  /** JavaScript's `Number(b)` for a boolean. */
  function Bit(b: bool): (r: real)
    ensures IsFlag(r)
    ensures r == 1.0 <==> b
  {
    if b then 1.0 else 0.0
  }

  /** The error an extractor throws when a required window is missing. */
  datatype MissingWindow = MissingWindow(series: string)

  /** Some entry of `series` spans exactly `days` days. */
  predicate HasWindow(series: seq<TimeRange>, days: int)
  {
    exists i :: 0 <= i < |series| && series[i].days == days
  }

  /**
   * The first entry of `series` from index `from` on whose span is exactly
   * `days` (lodash `find`), or None when there is none.
   */
  function FindWindowFrom(series: seq<TimeRange>, days: int, from: nat): (r: Option<TimeRange>)
    requires from <= |series|
    ensures r.None? <==> forall j :: from <= j < |series| ==> series[j].days != days
    ensures r.Some? ==> exists k :: from <= k < |series| && series[k] == r.value && r.value.days == days
                                   && forall j :: from <= j < k ==> series[j].days != days
    decreases |series| - from
  {
    if from == |series| then None
    else if series[from].days == days then Some(series[from])
    else FindWindowFrom(series, days, from + 1)
  }

  /** The first entry of `series` spanning exactly `days` days. */
  function FindWindow(series: seq<TimeRange>, days: int): (r: Option<TimeRange>)
    ensures r.Some? <==> HasWindow(series, days)
    ensures r.Some? ==> r.value in series && r.value.days == days
    ensures r.Some? ==> exists k :: 0 <= k < |series| && series[k] == r.value
                                   && forall j :: 0 <= j < k ==> series[j].days != days
  {
    FindWindowFrom(series, days, 0)
  }

  /** The count of the first `days`-day window; only asked when one exists. */
  function WindowCount(series: seq<TimeRange>, days: int): nat
    requires HasWindow(series, days)
  {
    FindWindow(series, days).value.count
  }
}
