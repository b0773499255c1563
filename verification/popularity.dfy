/**
 * The popularity sub-scores (src/commands/evaluate/popularity.ts): community
 * interest counts and the acceleration of downloads between time windows.
 */
module Popularity {
  import opened Wrappers
  import opened Collected

  datatype CommunityInterestCounts = CommunityInterestCounts(
    starsCount: nat,
    forksCount: nat,
    subscribersCount: nat,
    contributorsCount: nat)

  function CommunityInterest(c: PackageCollected): (r: CommunityInterestCounts)
    ensures c.github.None? ==> r.forksCount == 0 && r.subscribersCount == 0 && r.contributorsCount == 0
    ensures c.github.Some? ==> r.forksCount == c.github.value.forksCount
                               && r.subscribersCount == c.github.value.subscribersCount
    ensures r.starsCount == (if c.github.Some? then c.github.value.starsCount else 0)
                          + (if c.npm.Some? then c.npm.value.starsCount else 0)
    ensures c.github.Some? && c.github.value.contributors.Some? ==> r.contributorsCount == |c.github.value.contributors.value|
    ensures c.github.Some? && c.github.value.contributors.None? ==> r.contributorsCount == 0
  {
    match c.github
    case None =>
      CommunityInterestCounts(match c.npm case None => 0 case Some(n) => n.starsCount, 0, 0, 0)
    case Some(g) =>
      CommunityInterestCounts(
        g.starsCount + (match c.npm case None => 0 case Some(n) => n.starsCount),
        g.forksCount,
        g.subscribersCount,
        |g.contributors.GetOr([])|)
  }

  datatype Acceleration = Acceleration(shortTermAcceleration: real, midTermAcceleration: real, longTermAcceleration: real)

  /** `npm.downloads`, None when npm data or the series is absent. */
  function Downloads(c: PackageCollected): Option<seq<TimeRange>>
  {
    match c.npm
    case None => None
    case Some(n) => n.downloads
  }

  /** Daily mean of the first `days`-day window. */
  function Mean(series: seq<TimeRange>, days: int): real
    requires HasWindow(series, days) && days != 0
  {
    WindowCount(series, days) as real / days as real
  }

  /**
   * Without a downloads series every acceleration is 0. With one, the
   * result is an error exactly when the 30-, 90-, 180- or 365-day window is
   * missing (an empty series included), and otherwise each acceleration is
   * the difference of the daily means of two consecutive windows.
   */
  function DownloadsAcceleration(c: PackageCollected): (r: Result<Acceleration, MissingWindow>)
    ensures Downloads(c).None? ==> r == Ok(Acceleration(0.0, 0.0, 0.0))
    ensures Downloads(c).Some? ==>
              var ds := Downloads(c).value;
              (r.Err? <==> !(HasWindow(ds, 30) && HasWindow(ds, 90) && HasWindow(ds, 180) && HasWindow(ds, 365)))
    ensures Downloads(c).Some? && r.Ok? ==>
              var ds := Downloads(c).value;
              && r.value.shortTermAcceleration == Mean(ds, 30) - Mean(ds, 90)
              && r.value.midTermAcceleration == Mean(ds, 90) - Mean(ds, 180)
              && r.value.longTermAcceleration == Mean(ds, 180) - Mean(ds, 365)
  {
    match Downloads(c)
    case None => Ok(Acceleration(0.0, 0.0, 0.0))
    case Some(ds) =>
      var range30, range90, range180, range365 := FindWindow(ds, 30), FindWindow(ds, 90), FindWindow(ds, 180), FindWindow(ds, 365);
      if range30.None? || range90.None? || range180.None? || range365.None? then
        Err(MissingWindow("downloads"))
      else
        var mean30 := range30.value.count as real / 30.0;
        var mean90 := range90.value.count as real / 90.0;
        var mean180 := range180.value.count as real / 180.0;
        var mean365 := range365.value.count as real / 365.0;
        Ok(Acceleration(mean30 - mean90, mean90 - mean180, mean180 - mean365))
  }

  /** The three accelerations telescope to the 30-day mean minus the 365-day mean. */
  lemma AccelerationsTelescope(c: PackageCollected)
    requires Downloads(c).Some? && DownloadsAcceleration(c).Ok?
    ensures var a, ds := DownloadsAcceleration(c).value, Downloads(c).value;
      a.shortTermAcceleration + a.midTermAcceleration + a.longTermAcceleration
        == Mean(ds, 30) - Mean(ds, 365)
  {
  }

  /** With counts 5, 15, 20 and 40 in the four windows the short-term acceleration is exactly 0. */
  lemma ShortTermExample()
    ensures var c := PackageCollected(
              Metadata("p", "1.0.0", None, None, false, false, None, None, None, None, None),
              None, None,
              Some(Npm(0, Some([TimeRange(30, 5), TimeRange(90, 15), TimeRange(180, 20), TimeRange(365, 40)]))));
      DownloadsAcceleration(c) == Ok(Acceleration(0.0, 15.0 / 90.0 - 20.0 / 180.0, 20.0 / 180.0 - 40.0 / 365.0))
  {
  }
}
