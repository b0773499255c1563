/**
 * The maintenance sub-scores (src/commands/evaluate/maintenance.ts): release
 * and commit rates over fixed windows, open issues, and whether the package
 * looks finished. `isStableVersion(v)` stands for semver.gte(v, "1.0.0", loose).
 */
module Maintenance {
  import opened Wrappers
  import opened Collected

  datatype ReleasesRates = ReleasesRates(
    lastMonthReleases: real,
    lastQuarterReleases: real,
    lastYearReleases: real,
    lastTwoYearsReleases: real)

  /**
   * Without a releases series every rate is 0. With one, the result is an
   * error exactly when the 30-, 180-, 365- or 730-day window is missing,
   * and otherwise each rate is the window's count per 90 days.
   */
  function ReleasesFrequency(c: PackageCollected): (r: Result<ReleasesRates, MissingWindow>)
    ensures c.metadata.releases.None? ==> r == Ok(ReleasesRates(0.0, 0.0, 0.0, 0.0))
    ensures c.metadata.releases.Some? ==>
              var rs := c.metadata.releases.value;
              (r.Err? <==> !(HasWindow(rs, 30) && HasWindow(rs, 180) && HasWindow(rs, 365) && HasWindow(rs, 730)))
    ensures c.metadata.releases.Some? && r.Ok? ==>
              var rs := c.metadata.releases.value;
              && r.value.lastMonthReleases == WindowCount(rs, 30) as real * 90.0 / 30.0
              && r.value.lastQuarterReleases == WindowCount(rs, 180) as real * 90.0 / 180.0
              && r.value.lastYearReleases == WindowCount(rs, 365) as real * 90.0 / 365.0
              && r.value.lastTwoYearsReleases == WindowCount(rs, 730) as real * 90.0 / 730.0
    ensures r.Ok? ==> r.value.lastMonthReleases >= 0.0 && r.value.lastQuarterReleases >= 0.0
                      && r.value.lastYearReleases >= 0.0 && r.value.lastTwoYearsReleases >= 0.0
  {
    match c.metadata.releases
    case None => Ok(ReleasesRates(0.0, 0.0, 0.0, 0.0))
    case Some(rs) =>
      var range30, range180, range365, range730 := FindWindow(rs, 30), FindWindow(rs, 180), FindWindow(rs, 365), FindWindow(rs, 730);
      if range30.None? || range180.None? || range365.None? || range730.None? then
        Err(MissingWindow("releases"))
      else
        Ok(ReleasesRates(
          range30.value.count as real / (30.0 / 90.0),
          range180.value.count as real / (180.0 / 90.0),
          range365.value.count as real / (365.0 / 90.0),
          range730.value.count as real / (730.0 / 90.0)))
  }

  datatype CommitsRates = CommitsRates(lastMonthCommits: real, lastQuarterCommits: real, lastYearCommits: real)

  /** `github.commits`, None when GitHub data or the series is absent. */
  function Commits(c: PackageCollected): Option<seq<TimeRange>>
  {
    match c.github
    case None => None
    case Some(g) => g.commits
  }

  /**
   * Without a commits series every rate is 0. With one, the result is an
   * error exactly when the 30-, 180- or 365-day window is missing, and
   * otherwise each rate is the window's count per 30 days.
   */
  function CommitsFrequency(c: PackageCollected): (r: Result<CommitsRates, MissingWindow>)
    ensures Commits(c).None? ==> r == Ok(CommitsRates(0.0, 0.0, 0.0))
    ensures Commits(c).Some? ==>
              var cs := Commits(c).value;
              (r.Err? <==> !(HasWindow(cs, 30) && HasWindow(cs, 180) && HasWindow(cs, 365)))
    ensures Commits(c).Some? && r.Ok? ==>
              var cs := Commits(c).value;
              && r.value.lastMonthCommits == WindowCount(cs, 30) as real
              && r.value.lastQuarterCommits == WindowCount(cs, 180) as real * 30.0 / 180.0
              && r.value.lastYearCommits == WindowCount(cs, 365) as real * 30.0 / 365.0
    ensures r.Ok? ==> r.value.lastMonthCommits >= 0.0 && r.value.lastQuarterCommits >= 0.0 && r.value.lastYearCommits >= 0.0
  {
    match Commits(c)
    case None => Ok(CommitsRates(0.0, 0.0, 0.0))
    case Some(cs) =>
      var range30, range180, range365 := FindWindow(cs, 30), FindWindow(cs, 180), FindWindow(cs, 365);
      if range30.None? || range180.None? || range365.None? then
        Err(MissingWindow("commits"))
      else
        Ok(CommitsRates(
          range30.value.count as real / (30.0 / 30.0),
          range180.value.count as real / (180.0 / 30.0),
          range365.value.count as real / (365.0 / 30.0)))
  }

  /** `github.issues`, None when GitHub data or the issues record is absent. */
  function IssuesOf(c: PackageCollected): Option<Issues>
  {
    match c.github
    case None => None
    case Some(g) => g.issues
  }

  /** Total issues: 0 when issues are absent, disabled or counted as 0, else their count. */
  function OpenIssues(c: PackageCollected): (totalIssues: nat)
    ensures totalIssues != 0 <==> IssuesOf(c).Some? && !IssuesOf(c).value.isDisabled && IssuesOf(c).value.count != 0
    ensures totalIssues != 0 ==> totalIssues == IssuesOf(c).value.count
  {
    match IssuesOf(c)
    case None => 0
    case Some(issues) => if issues.isDisabled || issues.count == 0 then 0 else issues.count
  }

  datatype FinishedFlags = FinishedFlags(
    isStable: real,
    isNotDeprecated: real,
    hasFewIssues: real,
    hasREADME: real,
    hasTests: real,
    finished: real)

  /** Fewer than 15 open issues; an absent count defaults to Infinity, which is not. */
  predicate FewIssues(c: PackageCollected)
  {
    match IssuesOf(c)
    case None => false
    case Some(issues) => issues.openCount.Some? && issues.openCount.value < 15
  }

  function IsFinished(c: PackageCollected, isStableVersion: string -> bool): (r: FinishedFlags)
    ensures IsFlag(r.isStable) && IsFlag(r.isNotDeprecated) && IsFlag(r.hasFewIssues)
            && IsFlag(r.hasREADME) && IsFlag(r.hasTests) && IsFlag(r.finished)
    ensures r.finished == 1.0 <==>
              r.isStable == 1.0 && r.isNotDeprecated == 1.0 && r.hasFewIssues == 1.0 && r.hasREADME == 1.0 && r.hasTests == 1.0
    ensures r.isStable == 1.0 <==> isStableVersion(c.metadata.version)
    ensures r.isNotDeprecated == 1.0 <==> !Truthy(c.metadata.deprecated)
    ensures r.hasFewIssues == 1.0 <==> IssuesOf(c).Some? && IssuesOf(c).value.openCount.Some? && IssuesOf(c).value.openCount.value < 15
    ensures r.hasREADME == 1.0 <==> Truthy(c.metadata.readme)
    ensures r.hasTests == 1.0 <==> c.metadata.hasTestScript
  {
    var isStable := isStableVersion(c.metadata.version);
    var isNotDeprecated := !Truthy(c.metadata.deprecated);
    var hasFewIssues := FewIssues(c);
    var hasREADME := Truthy(c.metadata.readme);
    var hasTests := c.metadata.hasTestScript;
    FinishedFlags(
      Bit(isStable), Bit(isNotDeprecated), Bit(hasFewIssues), Bit(hasREADME), Bit(hasTests),
      Bit(isStable && isNotDeprecated && hasFewIssues && hasREADME && hasTests))
  }

  /**
   * An unstable version or a missing test script keeps a package from being
   * finished; a stable, undeprecated package with a README, a test script
   * and fewer than 15 open issues is finished.
   */
  lemma FinishedExamples(c: PackageCollected, isStableVersion: string -> bool)
    ensures !isStableVersion(c.metadata.version) || !c.metadata.hasTestScript ==> IsFinished(c, isStableVersion).finished == 0.0
    ensures (isStableVersion(c.metadata.version) && !Truthy(c.metadata.deprecated) && Truthy(c.metadata.readme)
             && c.metadata.hasTestScript && FewIssues(c)) ==> IsFinished(c, isStableVersion).finished == 1.0
  {
  }
}
