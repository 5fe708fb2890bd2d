/** Classifying a cluster's centre hour against the region table.

    For each region the classifier measures how far the centre hour is from the
    region's active-hours window (zero inside it, otherwise the circular distance to
    the nearer bound), ranks the regions by that distance with a stable sort, and
    reports the nearest region, a confidence that decays with its distance, and the
    next two regions of the ranking.
 */
module Classifier {

  import opened Hours
  import opened RegionTable
  import opened Ranking

  /** How far hour `h` is from the active hours of `r`. The window test is the
      literal `start <= h <= end`, so a window that crosses midnight never
      contains `h` and is only measured from its bounds. */
  function Distance(r: Region, h: real): (d: real)
    ensures 0.0 <= d <= 12.0
    ensures r.start <= h <= r.end ==> d == 0.0
  {
    if r.start <= h <= r.end then 0.0
    else Min(CircularDistance(h, r.start), CircularDistance(h, r.end))
  }

  /** For an ordinary window, distance zero means exactly that `h` lies in it. */
  lemma DistanceZeroInsideWindow(r: Region, h: real)
    requires WithinDay(r) && !CrossesMidnight(r) && 0.0 <= h < 24.0
    ensures Distance(r, h) == 0.0 <==> r.start <= h <= r.end
  {
    CircularDistanceZero(h, r.start);
    CircularDistanceZero(h, r.end);
  }

  /** A window that crosses midnight never takes the in-window branch; its
      distance is zero only at one of its two bounds exactly. */
  lemma DistanceZeroAcrossMidnight(r: Region, h: real)
    requires WithinDay(r) && CrossesMidnight(r) && 0.0 <= h < 24.0
    ensures !(r.start <= h <= r.end)
    ensures Distance(r, h) == 0.0 <==> h == r.start || h == r.end
  {
    CircularDistanceZero(h, r.start);
    CircularDistanceZero(h, r.end);
  }

  /** The list of (region, distance) scores of `table`, in table order. */
  function ScoresOver(table: seq<Region>, h: real): (s: seq<Score>)
    ensures |s| == |table|
    ensures Indexed(s)
    ensures forall i | 0 <= i < |s| :: s[i].region == table[i].name
    ensures forall i | 0 <= i < |s| :: s[i].distance == Distance(table[i], h)
  {
    seq(|table|, i requires 0 <= i < |table| =>
      Score(i, table[i].name, Distance(table[i], h)))
  }

  /** The scores of the region table. */
  function Scores(h: real): (s: seq<Score>)
    ensures |s| == |Regions|
    ensures Indexed(s)
  {
    ScoresOver(Regions, h)
  }

  /** `max(0.2, 1 - d / 12)`: full confidence at distance zero, falling linearly
      over half a day, never below 0.2. */
  function Confidence(d: real): (c: real)
    ensures 0.2 <= c
    ensures 0.0 <= d ==> c <= 1.0 && (c == 1.0 <==> d == 0.0)
    ensures 1.0 - d / 12.0 <= c
  {
    if 0.2 >= 1.0 - d / 12.0 then 0.2 else 1.0 - d / 12.0
  }

  /** Confidence never grows as the distance grows. */
  lemma ConfidenceNonIncreasing(d1: real, d2: real)
    requires d1 <= d2
    ensures Confidence(d2) <= Confidence(d1)
  {
  }

  /** What the classifier reports for one cluster. */
  datatype Classification = Classification(
    mainRegion: string,
    confidence: real,
    alternativeRegions: seq<string>)

  function RegionNames(s: seq<Score>): (names: seq<string>)
    ensures |names| == |s|
    ensures forall i | 0 <= i < |s| :: names[i] == s[i].region
  {
    if s == [] then [] else [s[0].region] + RegionNames(s[1..])
  }

  /** The scores of all regions, ranked nearest first. */
  function Ranked(h: real): (r: seq<Score>)
    ensures |r| == |Regions|
    ensures StrictlyRanked(r)
    ensures multiset(r) == multiset(Scores(h))
  {
    StableSort(Scores(h))
  }

  /** The classification of centre hour `h`: the first entry of the ranking, its
      confidence, and the names of the next two entries. */
  function Classify(h: real): (c: Classification)
    ensures 0.2 <= c.confidence <= 1.0
    ensures |c.alternativeRegions| == 2
  {
    var ranked := Ranked(h);
    assert |ranked| >= 3 by { TableSize(); }
    SortedEntry(Scores(h), 0);
    Classification(ranked[0].region, Confidence(ranked[0].distance), RegionNames(ranked[1..3]))
  }

  /** The classification by the stable ranking agrees with picking, one after the
      other, the three nearest regions (`NearestAmong`): the main region, its
      confidence and the two alternatives are those of the three picks. */
  lemma ClassifyBySelection(h: real)
    ensures var s := Scores(h);
            var k0 := NearestAmong(s, {}, |s|);
            var k1 := NearestAmong(s, {k0}, |s|);
            var k2 := NearestAmong(s, {k0, k1}, |s|);
            && 0 <= k0 && 0 <= k1 && 0 <= k2
            && Classify(h) == Classification(
                 s[k0].region, Confidence(s[k0].distance), [s[k1].region, s[k2].region])
  {
    var s := Scores(h);
    assert |s| >= 3 by { TableSize(); }
    FirstThree(s);
    var r := Ranked(h);
    assert RegionNames(r[1..3]) == [r[1].region, r[2].region];
  }

  /** The main region has the least distance of all regions, every region
      before it in the table is strictly further, and the confidence is that of
      its distance. */
  lemma MainRegionNearest(h: real)
    ensures var s := Scores(h);
            var k0 := NearestAmong(s, {}, |s|);
            var c := Classify(h);
            && 0 <= k0
            && c.mainRegion == s[k0].region
            && c.confidence == Confidence(s[k0].distance)
            && (forall j | 0 <= j < |s| :: s[k0].distance <= s[j].distance)
            && (forall j | 0 <= j < k0 :: s[k0].distance < s[j].distance)
  {
    var s := Scores(h);
    assert |s| >= 3 by { TableSize(); }
    ClassifyBySelection(h);
    FirstThreePicks(s);
  }

  /** The alternatives are the next two picks after the main region, with
      distances that never decrease from the main region to the second
      alternative, and every region not reported is ranked after them. */
  lemma AlternativesNext(h: real)
    ensures var s := Scores(h);
            var k0 := NearestAmong(s, {}, |s|);
            var k1 := NearestAmong(s, {k0}, |s|);
            var k2 := NearestAmong(s, {k0, k1}, |s|);
            && 0 <= k0 && 0 <= k1 && 0 <= k2
            && Classify(h).alternativeRegions == [s[k1].region, s[k2].region]
            && s[k0].distance <= s[k1].distance <= s[k2].distance
            && (forall j | 0 <= j < |s| && j != k0 && j != k1 && j != k2 :: Before(s[k2], s[j]))
  {
    var s := Scores(h);
    assert |s| >= 3 by { TableSize(); }
    ClassifyBySelection(h);
    FirstThreePicks(s);
  }

  /** The main region and the two alternatives are three different names. */
  lemma ReportedNamesDistinct(h: real)
    ensures var c := Classify(h);
            && c.mainRegion != c.alternativeRegions[0]
            && c.mainRegion != c.alternativeRegions[1]
            && c.alternativeRegions[0] != c.alternativeRegions[1]
  {
    var s := Scores(h);
    assert |s| >= 3 by { TableSize(); }
    ClassifyBySelection(h);
    FirstThreePicks(s);
    NamesDistinct();
    var k0 := NearestAmong(s, {}, |s|);
    var k1 := NearestAmong(s, {k0}, |s|);
    var k2 := NearestAmong(s, {k0, k1}, |s|);
    assert Regions[k0].name != Regions[k1].name by {
      if k0 < k1 { } else { }
    }
    assert Regions[k0].name != Regions[k2].name by {
      if k0 < k2 { } else { }
    }
    assert Regions[k1].name != Regions[k2].name by {
      if k1 < k2 { } else { }
    }
  }

  /** The scoring loop of `interpret_cluster`: one (region, distance) score per
      table entry, appended in table order. */
  method ScoreRegions(table: seq<Region>, centerHour: real) returns (regionScores: seq<Score>)
    ensures regionScores == ScoresOver(table, centerHour)
  {
    regionScores := [];
    var i := 0;
    while i < |table|
      invariant 0 <= i <= |table|
      invariant regionScores == ScoresOver(table, centerHour)[..i]
    {
      var region := table[i];
      var distance: real;
      if region.start <= centerHour <= region.end {
        distance := 0.0;
      } else {
        var distToStart := Min(Mod24(centerHour - region.start), Mod24(region.start - centerHour));
        var distToEnd := Min(Mod24(centerHour - region.end), Mod24(region.end - centerHour));
        distance := Min(distToStart, distToEnd);
      }
      assert distance == Distance(region, centerHour);
      assert ScoresOver(table, centerHour)[..i + 1]
          == ScoresOver(table, centerHour)[..i] + [Score(i, region.name, distance)];
      regionScores := regionScores + [Score(i, region.name, distance)];
      i := i + 1;
    }
  }

  /** `interpret_cluster`: score the regions, sort the scores stably by
      distance, and report the nearest region, its confidence and the next two
      region names. */
  method InterpretCluster(clusterHours: seq<real>, clusterIdx: nat)
    returns (mainRegion: string, confidence: real, altRegions: seq<string>)
    requires clusterIdx < |clusterHours|
    ensures Classification(mainRegion, confidence, altRegions) == Classify(clusterHours[clusterIdx])
  {
    var centerHour := clusterHours[clusterIdx];
    var regionScores := ScoreRegions(Regions, centerHour);
    assert |regionScores| >= 3 by { TableSize(); }
    var ranked := StableSort(regionScores);
    mainRegion := ranked[0].region;
    confidence := Confidence(ranked[0].distance);
    altRegions := RegionNames(ranked[1..3]);
  }
}
