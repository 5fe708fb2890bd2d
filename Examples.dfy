/** Worked classifications of particular centre hours, derived from the region
    table and the ranking rules.

    Each case shows a separate facet of the classifier: a tie among several
    windows that all contain the hour, broken by table order; an evening hour
    just after the European windows close; and a late-evening hour reached only
    through the Oceania windows that cross midnight.
 */
module Examples {

  import opened Hours
  import opened RegionTable
  import opened Ranking
  import opened Classifier

  /** The first three entries of the table all contain 09:00 UTC. */
  lemma ScoresAtNine()
    ensures var s := Scores(9.0);
            && 2 < |s|
            && s[0].distance == 0.0 && s[1].distance == 0.0 && s[2].distance == 0.0
            && s[0].region == "US Pacific" && s[1].region == "US Mountain"
            && s[2].region == "US Central"
  {
    TableSize();
    EntryOfGroup(0);
    EntryOfGroup(1);
    EntryOfGroup(2);
  }

  lemma PicksAtNine()
    ensures var s := Scores(9.0);
            && NearestAmong(s, {}, |s|) == 0
            && NearestAmong(s, {0}, |s|) == 1
            && NearestAmong(s, {0, 1}, |s|) == 2
  {
    var s := Scores(9.0);
    ScoresAtNine();
    ThreePicksAre(s, 0, 1, 2);
  }

  /** At 09:00 UTC the first three North American windows all contain the hour,
      so the tie goes to the earliest entries of the table. */
  lemma ClassifyAtNine()
    ensures Classify(9.0) == Classification("US Pacific", 1.0, ["US Mountain", "US Central"])
  {
    PicksAtNine();
    ClassifyBySelection(9.0);
    ScoresAtNine();
  }

  /** Outside its window, the distance from `r` is the nearer of the two bounds,
      each measured the shorter way round the clock, without floor division. */
  lemma DistanceOutside(r: Region, h: real)
    requires WithinDay(r) && 0.0 <= h < 24.0 && !(r.start <= h <= r.end)
    ensures Distance(r, h) == Min(Min(Wrap(h - r.start), Wrap(r.start - h)),
                                  Min(Wrap(h - r.end), Wrap(r.end - h)))
  {
    Mod24Shift(h - r.start);
    Mod24Shift(r.start - h);
    Mod24Shift(h - r.end);
    Mod24Shift(r.end - h);
  }

  /** `Mod24` for an argument within a day either side of zero. */
  function Wrap(x: real): real {
    if x < 0.0 then x + 24.0 else x
  }

  /** Distances of the table's entries from 18:00 UTC, group by group. */
  lemma AmericasFromEighteen(r: Region)
    requires r in NorthAmerica || r in SouthAmerica
    ensures Distance(r, 18.0) > 2.0
  {
    DistanceOutside(r, 18.0);
  }

  lemma AsiaFromEighteen(r: Region)
    requires r in Asia
    ensures Distance(r, 18.0) > 2.0
  {
    DistanceOutside(r, 18.0);
  }

  lemma OceaniaFromEighteen(r: Region)
    requires r in Oceania
    ensures Distance(r, 18.0) > 2.0
  {
    DistanceOutside(r, 18.0);
  }

  lemma EuropeAtEighteen()
    ensures Distance(Europe[0], 18.0) == 1.0 && Distance(Europe[1], 18.0) == 1.0
    ensures Distance(Europe[2], 18.0) == 2.0
    ensures Distance(Europe[3], 18.0) > 2.0 && Distance(Europe[4], 18.0) > 2.0
  {
    DistanceOutside(Europe[0], 18.0);
    DistanceOutside(Europe[1], 18.0);
    DistanceOutside(Europe[2], 18.0);
    DistanceOutside(Europe[3], 18.0);
    DistanceOutside(Europe[4], 18.0);
  }

  /** The distances from 18:00 UTC as they stand in the list of scores. */
  lemma ScoresAtEighteen()
    ensures var s := Scores(18.0);
            && s[8].distance == 1.0 && s[9].distance == 1.0 && s[10].distance == 2.0
            && s[8].region == "UK" && s[9].region == "Ireland" && s[10].region == "Central Europe"
            && forall j | 0 <= j < |s| && !(8 <= j < 11) :: s[j].distance > 2.0
  {
    var s := Scores(18.0);
    EuropeAtEighteen();
    forall j | 0 <= j < |s| && !(8 <= j < 11) ensures s[j].distance > 2.0 {
      EntryOfGroup(j);
      if j < 8 {
        AmericasFromEighteen(Regions[j]);
      } else if j < 13 {
      } else if j < 24 {
        AsiaFromEighteen(Regions[j]);
      } else {
        OceaniaFromEighteen(Regions[j]);
      }
    }
    assert s[8].distance == 1.0 && s[9].distance == 1.0 && s[10].distance == 2.0 by {
      EntryOfGroup(8);
      EntryOfGroup(9);
      EntryOfGroup(10);
    }
  }

  /** The three nearest entries to 18:00 UTC, picked one after the other. */
  lemma PicksAtEighteen()
    ensures var s := Scores(18.0);
            && NearestAmong(s, {}, |s|) == 8
            && NearestAmong(s, {8}, |s|) == 9
            && NearestAmong(s, {8, 9}, |s|) == 10
  {
    var s := Scores(18.0);
    ScoresAtEighteen();
    ThreePicksAre(s, 8, 9, 10);
  }

  /** At 18:00 UTC no window contains the hour; the UK and Ireland windows closed
      an hour before, Central Europe two hours before, and every other window is
      further away. */
  lemma ClassifyAtEighteen()
    ensures Classify(18.0) == Classification("UK", 11.0 / 12.0, ["Ireland", "Central Europe"])
  {
    PicksAtEighteen();
    ClassifyBySelection(18.0);
    ScoresAtEighteen();
  }

  /** Distances of the entries outside Oceania from 22:00 UTC, group by group. */
  lemma AmericasFromTwentyTwo(r: Region)
    requires r in NorthAmerica || r in SouthAmerica
    ensures Distance(r, 22.0) > 1.5
  {
    DistanceOutside(r, 22.0);
  }

  lemma EuropeFromTwentyTwo(r: Region)
    requires r in Europe
    ensures Distance(r, 22.0) > 1.5
  {
    DistanceOutside(r, 22.0);
  }

  lemma AsiaFromTwentyTwo(r: Region)
    requires r in Asia
    ensures Distance(r, 22.0) > 1.5
  {
    DistanceOutside(r, 22.0);
  }

  /** Distances of the Oceania entries from 22:00 UTC. The three windows that
      cross midnight are measured from their bounds only. */
  lemma OceaniaAtTwentyTwo()
    ensures Distance(Oceania[0], 22.0) > 1.5
    ensures Distance(Oceania[1], 22.0) == 1.5
    ensures Distance(Oceania[2], 22.0) == 1.0 && Distance(Oceania[3], 22.0) == 1.0
  {
    DistanceOutside(Oceania[0], 22.0);
    DistanceOutside(Oceania[1], 22.0);
    DistanceOutside(Oceania[2], 22.0);
    DistanceOutside(Oceania[3], 22.0);
  }

  lemma ScoresAtTwentyTwo()
    ensures var s := Scores(22.0);
            && 27 < |s|
            && s[25].distance == 1.5 && s[26].distance == 1.0 && s[27].distance == 1.0
            && s[25].region == "Australia Central" && s[26].region == "Australia Eastern"
            && s[27].region == "New Zealand"
            && forall j | 0 <= j < 25 :: s[j].distance > 1.5
  {
    var s := Scores(22.0);
    TableSize();
    OceaniaAtTwentyTwo();
    forall j | 0 <= j < 25 ensures s[j].distance > 1.5 {
      EntryOfGroup(j);
      if j < 8 {
        AmericasFromTwentyTwo(Regions[j]);
      } else if j < 13 {
        EuropeFromTwentyTwo(Regions[j]);
      } else if j < 24 {
        AsiaFromTwentyTwo(Regions[j]);
      }
    }
    assert s[25].distance == 1.5 && s[26].distance == 1.0 && s[27].distance == 1.0 by {
      EntryOfGroup(25);
      EntryOfGroup(26);
      EntryOfGroup(27);
    }
  }

  lemma PicksAtTwentyTwo()
    ensures var s := Scores(22.0);
            && NearestAmong(s, {}, |s|) == 26
            && NearestAmong(s, {26}, |s|) == 27
            && NearestAmong(s, {26, 27}, |s|) == 25
  {
    var s := Scores(22.0);
    ScoresAtTwentyTwo();
    ThreePicksAre(s, 26, 27, 25);
  }

  /** At 22:00 UTC only the windows that cross midnight are near. Australia
      Eastern and New Zealand are both an hour from a bound, and Australia
      Eastern wins the tie by coming first in the table although 22:00 lies
      inside New Zealand's 21:00-05:00 window as a clock reading. */
  lemma ClassifyAtTwentyTwo()
    ensures Classify(22.0)
         == Classification("Australia Eastern", 11.0 / 12.0, ["New Zealand", "Australia Central"])
  {
    PicksAtTwentyTwo();
    ClassifyBySelection(22.0);
    ScoresAtTwentyTwo();
  }

  /** 01:00 UTC is inside New Zealand's 21:00-05:00 working day on the clock, yet
      the literal window test misses it and the distance is four hours, to either
      bound. */
  lemma NewZealandAtOne()
    ensures Distance(Oceania[3], 1.0) == 4.0
  {
    DistanceOutside(Oceania[3], 1.0);
  }
}
