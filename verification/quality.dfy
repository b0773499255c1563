/**
 * The quality sub-scores (src/commands/evaluate/quality.ts): carefulness,
 * tests, health and branding, each computed from the collected record.
 * The two questions npm-pd puts to the `semver` library are parameters:
 * `isStableVersion(v)` stands for semver.gte(v, "1.0.0", loose) and
 * `isUnlockedRange(r)` for "validRange(r, loose) is a range and
 * 1000000.0.0 is not greater than every version in it".
 */
module Quality {
  import opened Wrappers
  import opened Collected
  import opened Normalize

  // ---------------------------------------------------------------- carefulness

  datatype CarefulnessScores = CarefulnessScores(
    licenseEvaluation: real,
    readmeEvaluation: real,
    lintersEvaluation: real,
    ignoreEvaluation: real,
    changelogEvaluation: real,
    isDeprecated: real,  // 1 when the package is NOT deprecated, as npm-pd names it
    isStable: real)

  /** `source.files.readmeSize`, 0 when there is no `source` analysis. */
  function ReadmeSize(c: PackageCollected): nat
  {
    match c.source
    case None => 0
    case Some(s) => s.files.readmeSize
  }

  /** README size through the calibration [(0, 0), (400, 1)]. */
  function ReadmeEvaluation(size: nat): (r: real)
    ensures r == Min(size as real, 400.0) / 400.0
    ensures 0.0 <= r <= 1.0
  {
    FromZero(size as real, 400.0, 1.0);
    Calibrate(size as real, ScoreStep(0.0, 0.0), ScoreStep(400.0, 1.0))
  }

  function Carefulness(c: PackageCollected, isStableVersion: string -> bool): (r: CarefulnessScores)
    ensures IsFlag(r.licenseEvaluation) && (r.licenseEvaluation == 1.0 <==> Truthy(c.metadata.license))
    ensures r.readmeEvaluation == Min(ReadmeSize(c) as real, 400.0) / 400.0
    ensures c.source.None? ==> r.readmeEvaluation == 0.0
    ensures IsFlag(r.lintersEvaluation)
    ensures r.lintersEvaluation == 1.0 <==> c.source.Some? && c.source.value.linters.Some?
    ensures IsFlag(r.ignoreEvaluation)
    ensures r.ignoreEvaluation == 1.0 <==>
              (c.source.Some? && c.source.value.files.hasNpmIgnore) || c.metadata.hasSelectiveFiles
    ensures IsFlag(r.changelogEvaluation)
    ensures r.changelogEvaluation == 1.0 <==> c.source.Some? && c.source.value.files.hasChangelog
    ensures IsFlag(r.isDeprecated) && (r.isDeprecated == 1.0 <==> !Truthy(c.metadata.deprecated))
    ensures IsFlag(r.isStable) && (r.isStable == 1.0 <==> isStableVersion(c.metadata.version))
  {
    CarefulnessScores(
      Bit(Truthy(c.metadata.license)),
      ReadmeEvaluation(ReadmeSize(c)),
      Bit(c.source.Some? && c.source.value.linters.Some?),
      Bit((c.source.Some? && c.source.value.files.hasNpmIgnore) || c.metadata.hasSelectiveFiles),
      Bit(c.source.Some? && c.source.value.files.hasChangelog),
      Bit(!Truthy(c.metadata.deprecated)),
      Bit(isStableVersion(c.metadata.version)))
  }

  // ---------------------------------------------------------------- tests

  datatype TestsScores = TestsScores(testsEvaluation: real, statusEvaluation: real, coverageEvaluation: real)

  /** `github.statuses`, empty when GitHub data or the list is absent. */
  function Statuses(c: PackageCollected): seq<Status>
  {
    match c.github
    case None => []
    case Some(g) => g.statuses.GetOr([])
  }

  /** The weight of one status in the CI score. */
  function StatusWeight(s: Status): real
  {
    if s.state == "success" then 1.0
    else if s.state == "pending" then 0.3
    else 0.0
  }

  /**
   * npm-pd's `reduce` over the statuses: left to right, each entry adds
   * its weight divided by the length `total` of the whole list.
   */
  function StatusFold(statuses: seq<Status>, total: nat): (r: real)
    requires |statuses| <= total
    ensures 0.0 <= r
    ensures total > 0 ==> r <= |statuses| as real / total as real
    decreases |statuses|
  {
    if statuses == [] then 0.0
    else
      var w := StatusWeight(statuses[|statuses| - 1]);
      var prev := StatusFold(statuses[..|statuses| - 1], total);
      ShareStep(prev, w, (|statuses| - 1) as real, total as real);
      prev + w / total as real
  }

  /** Adding w / n with w in [0, 1] to at most m / n gives at most (m + 1) / n. */
  lemma ShareStep(prev: real, w: real, m: real, n: real)
    requires 0.0 < n && 0.0 <= prev <= m / n && 0.0 <= w <= 1.0
    ensures 0.0 <= prev + w / n <= (m + 1.0) / n
  {
    assert w / n == w * (1.0 / n);
    assert (1.0 - w) * (1.0 / n) >= 0.0;
    assert (m + 1.0) / n == m / n + 1.0 / n;
  }

  /** How many statuses are in `state`. */
  function CountState(statuses: seq<Status>, state: string): (n: nat)
    ensures n <= |statuses|
    decreases |statuses|
  {
    if statuses == [] then 0
    else CountState(statuses[..|statuses| - 1], state) + (if statuses[|statuses| - 1].state == state then 1 else 0)
  }

  /** The CI score as a weighted share: (successes + 0.3 pendings) / all, 0 for no statuses. */
  function StatusScore(statuses: seq<Status>): real
  {
    if statuses == [] then 0.0
    else (CountState(statuses, "success") as real + 0.3 * CountState(statuses, "pending") as real) / |statuses| as real
  }

  /** Successes and pendings together never outnumber the statuses. */
  lemma {:induction false} SuccessAndPendingBound(statuses: seq<Status>)
    ensures CountState(statuses, "success") + CountState(statuses, "pending") <= |statuses|
    decreases |statuses|
  {
    if statuses != [] {
      SuccessAndPendingBound(statuses[..|statuses| - 1]);
    }
  }

  /** Fractions over one denominator add up their numerators. */
  lemma AddFractions(a: real, b: real, d: real)
    requires d != 0.0
    ensures a / d + b / d == (a + b) / d
  {
  }

  /** The fold computes the weighted share. */
  lemma {:induction false} StatusFoldIsShare(statuses: seq<Status>, total: nat)
    requires |statuses| <= total && 0 < total
    ensures StatusFold(statuses, total)
         == (CountState(statuses, "success") as real + 0.3 * CountState(statuses, "pending") as real) / total as real
    decreases |statuses|
  {
    if statuses != [] {
      var init := statuses[..|statuses| - 1];
      StatusFoldIsShare(init, total);
      var s, p := CountState(init, "success") as real, CountState(init, "pending") as real;
      var w := StatusWeight(statuses[|statuses| - 1]);
      AddFractions(s + 0.3 * p, w, total as real);
    }
  }

  /** The CI score npm-pd computes is the weighted share, and lies in [0, 1]. */
  lemma StatusEvaluationIsShare(statuses: seq<Status>)
    ensures StatusFold(statuses, |statuses|) == StatusScore(statuses)
    ensures 0.0 <= StatusScore(statuses) <= 1.0
  {
    if statuses != [] {
      StatusFoldIsShare(statuses, |statuses|);
      StatusScoreBounded(statuses);
      assert StatusScore(statuses)
          == (CountState(statuses, "success") as real + 0.3 * CountState(statuses, "pending") as real) / |statuses| as real;
    }
  }

  /** The weighted share lies in [0, 1]. */
  lemma StatusScoreBounded(statuses: seq<Status>)
    requires statuses != []
    ensures 0.0 <= StatusScore(statuses) <= 1.0
  {
    SuccessAndPendingBound(statuses);
    var s, p := CountState(statuses, "success"), CountState(statuses, "pending");
    var x := s as real + 0.3 * p as real;
    assert 0.0 <= x <= |statuses| as real;
    FractionAtMostOne(x, |statuses| as real);
  }

  /** A quotient x / n with 0 <= x <= n lies in [0, 1]. */
  lemma FractionAtMostOne(x: real, n: real)
    requires 0.0 <= x <= n && 0.0 < n
    ensures 0.0 <= x / n <= 1.0
  {
    assert (x / n) * n == x;
  }

  /**
   * Tests size through [(0, 0), (400, ceiling)], where the ceiling is 1 with
   * a declared test script and 0.5 without.
   */
  function TestsEvaluation(size: nat, hasTestScript: bool): (r: real)
    ensures var ceiling := if hasTestScript then 1.0 else 0.5;
      && 0.0 <= r <= ceiling
      && r == Min(size as real, 400.0) / 400.0 * ceiling
  {
    var ceiling := if hasTestScript then 1.0 else 0.5;
    FromZero(size as real, 400.0, ceiling);
    Calibrate(size as real, ScoreStep(0.0, 0.0), ScoreStep(400.0, ceiling))
  }

  function Tests(c: PackageCollected): (r: TestsScores)
    ensures c.source.None? ==> r == TestsScores(0.0, 0.0, 0.0)
    ensures c.source.Some? ==>
              var ceiling := if c.metadata.hasTestScript then 1.0 else 0.5;
              && 0.0 <= r.testsEvaluation <= ceiling
              && r.testsEvaluation == Min(c.source.value.files.testsSize as real, 400.0) / 400.0 * ceiling
    ensures c.source.Some? ==> r.statusEvaluation == StatusScore(Statuses(c)) && 0.0 <= r.statusEvaluation <= 1.0
    ensures c.source.Some? ==> r.coverageEvaluation == c.source.value.coverage.GetOr(0.0)
  {
    match c.source
    case None => TestsScores(0.0, 0.0, 0.0)
    case Some(s) =>
      var statuses := Statuses(c);
      StatusEvaluationIsShare(statuses);
      TestsScores(
        TestsEvaluation(s.files.testsSize, c.metadata.hasTestScript),
        StatusFold(statuses, |statuses|),
        s.coverage.GetOr(0.0))
  }

  // ---------------------------------------------------------------- health

  datatype HealthScores = HealthScores(outdatedEvaluation: real, vulnerabilitiesEvaluation: real, unlockedEvaluation: real)

  /** `metadata.dependencies`, an empty map when absent. */
  function Dependencies(c: PackageCollected): map<string, string>
  {
    c.metadata.dependencies.GetOr(map[])
  }

  /** The number of outdated dependencies the `source` analysis lists. */
  function OutdatedCount(s: Source): (n: nat)
    ensures n == 0 <==> s.outdatedDependencies.None? || s.outdatedDependencies.value == {}
  {
    match s.outdatedDependencies
    case None => 0
    case Some(o) => |o|
  }

  /** An array of vulnerabilities counts its entries; another truthy value counts every dependency. */
  function VulnerabilitiesCount(s: Source, dependenciesCount: nat): (n: nat)
    ensures s.vulnerabilities.VulnerabilityList? ==> n == |s.vulnerabilities.entries|
    ensures n == 0 <==> match s.vulnerabilities
                        case NoVulnerabilityData => true
                        case VulnerabilityList(entries) => entries == []
                        case VulnerabilityFlag => dependenciesCount == 0
  {
    match s.vulnerabilities
    case NoVulnerabilityData => 0
    case VulnerabilityList(entries) => |entries|
    case VulnerabilityFlag => dependenciesCount
  }

  /** Dependencies with loosely pinned ranges; none when a shrinkwrap locks them. */
  function UnlockedCount(s: Source, dependencies: map<string, string>, isUnlockedRange: string -> bool): (n: nat)
    ensures s.files.hasShrinkwrap ==> n == 0
    ensures n <= |dependencies|
    ensures !s.files.hasShrinkwrap ==>
              (n == 0 <==> forall name :: name in dependencies ==> !isUnlockedRange(dependencies[name]))
  {
    if s.files.hasShrinkwrap then 0
    else
      var unlocked := set name | name in dependencies && isUnlockedRange(dependencies[name]);
      SubsetSize(unlocked, dependencies.Keys);
      assert forall name :: name in dependencies && isUnlockedRange(dependencies[name]) ==> name in unlocked;
      |unlocked|
  }

  /** A subset is no larger than its superset. */
  lemma {:induction false} SubsetSize<T>(a: set<T>, b: set<T>)
    requires a <= b
    ensures |a| <= |b|
    decreases |b|
  {
    if a != {} {
      var x :| x in a;
      SubsetSize(a - {x}, b - {x});
    }
  }

  /**
   * A count of bad dependencies through [(0, 1), (max(2, n / 4), 0)]: the score lies in
   * [0, 1], is 1 at count 0 and 0 once the count reaches max(2, n / 4).
   */
  function PenaltyEvaluation(count: nat, dependenciesCount: nat): (r: real)
    ensures 0.0 <= r <= 1.0
    ensures count == 0 ==> r == 1.0
    ensures Max(2.0, dependenciesCount as real / 4.0) <= count as real ==> r == 0.0
    ensures count as real < Max(2.0, dependenciesCount as real / 4.0) ==>
              r == 1.0 - count as real / Max(2.0, dependenciesCount as real / 4.0)
  {
    var threshold := Max(2.0, dependenciesCount as real / 4.0);
    assert (0.0 - 1.0) * (count as real - 0.0) / (threshold - 0.0) == -(count as real / threshold);
    Calibrate(count as real, ScoreStep(0.0, 1.0), ScoreStep(threshold, 0.0))
  }

  /** 1 when nothing is unlocked, else 1 / (unlocked + 1); always in (0, 1]. */
  function UnlockedEvaluation(unlocked: nat): (r: real)
    ensures 0.0 < r <= 1.0
    ensures r == 1.0 / (unlocked + 1) as real
  {
    FractionAtMostOne(1.0, (unlocked + 1) as real);
    if unlocked == 0 then 1.0 else 1.0 / (unlocked + 1) as real
  }

  function Health(c: PackageCollected, isUnlockedRange: string -> bool): (r: HealthScores)
    ensures c.source.None? ==> r == HealthScores(0.0, 0.0, 0.0)
    ensures c.source.Some? && |Dependencies(c)| == 0 ==> r == HealthScores(1.0, 1.0, 1.0)
    ensures c.source.Some? ==>
              && 0.0 <= r.outdatedEvaluation <= 1.0
              && 0.0 <= r.vulnerabilitiesEvaluation <= 1.0
              && 0.0 < r.unlockedEvaluation <= 1.0
    ensures c.source.Some? && c.source.value.files.hasShrinkwrap ==> r.unlockedEvaluation == 1.0
    ensures c.source.Some? && |Dependencies(c)| > 0 ==>
              var s, n := c.source.value, |Dependencies(c)|;
              var threshold := Max(2.0, n as real / 4.0);
              && r.unlockedEvaluation == 1.0 / (UnlockedCount(s, Dependencies(c), isUnlockedRange) + 1) as real
              && r.outdatedEvaluation == PenaltyEvaluation(OutdatedCount(s), n)
              && r.vulnerabilitiesEvaluation == PenaltyEvaluation(VulnerabilitiesCount(s, n), n)
              && (OutdatedCount(s) == 0 ==> r.outdatedEvaluation == 1.0)
              && (threshold <= OutdatedCount(s) as real ==> r.outdatedEvaluation == 0.0)
              && (VulnerabilitiesCount(s, n) == 0 ==> r.vulnerabilitiesEvaluation == 1.0)
              && (threshold <= VulnerabilitiesCount(s, n) as real ==> r.vulnerabilitiesEvaluation == 0.0)
  {
    match c.source
    case None => HealthScores(0.0, 0.0, 0.0)
    case Some(s) =>
      var dependencies := Dependencies(c);
      var n := |dependencies|;
      if n == 0 then HealthScores(1.0, 1.0, 1.0)
      else
        var outdated := OutdatedCount(s);
        var vulnerable := VulnerabilitiesCount(s, n);
        var unlocked := UnlockedCount(s, dependencies, isUnlockedRange);
        HealthScores(
          PenaltyEvaluation(outdated, n),
          PenaltyEvaluation(vulnerable, n),
          UnlockedEvaluation(unlocked))
  }

  // ---------------------------------------------------------------- branding

  datatype BrandingScores = BrandingScores(homepageEvaluation: real, badgesEvaluation: real)

  /** The host of an optional URL; an absent URL parses as '' and has none. */
  function HostOf(u: Option<Url>): Option<string>
  {
    match u
    case None => None
    case Some(url) => url.host
  }

  /** `metadata.links.homepage`, falling back to `github.homepage` when absent. */
  function HomepageUrl(c: PackageCollected): Option<Url>
  {
    if c.metadata.homepage.Some? then c.metadata.homepage
    else match c.github
      case None => None
      case Some(g) => g.homepage
  }

  /** `source.badges.length`, 0 when absent. */
  function BadgesCount(c: PackageCollected): nat
  {
    match c.source
    case None => 0
    case Some(s) => match s.badges
      case None => 0
      case Some(b) => |b|
  }

  /** Badge count through the calibration [(0, 0), (4, 1)]. */
  function BadgesEvaluation(c: PackageCollected): (r: real)
    ensures r == Min(BadgesCount(c) as real, 4.0) / 4.0
    ensures 0.0 <= r <= 1.0
  {
    var badges := BadgesCount(c) as real;
    FromZero(badges, 4.0, 1.0);
    Calibrate(badges, ScoreStep(0.0, 0.0), ScoreStep(4.0, 1.0))
  }

  /** A custom homepage: both hosts present, non-empty and different. */
  predicate HasCustomHomepage(c: PackageCollected)
  {
    var repository, homepage := HostOf(c.metadata.repository), HostOf(HomepageUrl(c));
    Truthy(repository) && Truthy(homepage) && repository.value != homepage.value
  }

  function Branding(c: PackageCollected): (r: BrandingScores)
    ensures IsFlag(r.homepageEvaluation)
    ensures r.homepageEvaluation == 1.0 <==> HasCustomHomepage(c)
    ensures r.badgesEvaluation == Min(BadgesCount(c) as real, 4.0) / 4.0
    ensures 0.0 <= r.badgesEvaluation <= 1.0
  {
    BrandingScores(Bit(HasCustomHomepage(c)), BadgesEvaluation(c))
  }
}
