/** The static table of regions and their typical active hours in UTC.

    Each entry is a region name and an active-hours window `(start, end)` in UTC
    hours. The table is ordered: classification breaks ties between equally near
    regions by taking the earlier entry, so the order below, continent group by
    continent group, is part of the behaviour. The informational UTC offset of
    each entry is never read by the classifier and is not kept.
 */
module RegionTable {

  datatype Region = Region(name: string, start: real, end: real)

  const NorthAmerica: seq<Region> := [
    Region("US Pacific", 1.0, 9.0),
    Region("US Mountain", 2.0, 10.0),
    Region("US Central", 3.0, 11.0),
    Region("US Eastern", 4.0, 12.0),
    Region("Canada Atlantic", 5.0, 13.0)
  ]

  const SouthAmerica: seq<Region> := [
    Region("Brazil East", 6.0, 14.0),
    Region("Argentina", 6.0, 14.0),
    Region("Chile", 5.0, 13.0)
  ]

  const Europe: seq<Region> := [
    Region("UK", 9.0, 17.0),
    Region("Ireland", 9.0, 17.0),
    Region("Central Europe", 8.0, 16.0),
    Region("Eastern Europe", 7.0, 15.0),
    Region("Moscow", 6.0, 14.0)
  ]

  const Asia: seq<Region> := [
    Region("Turkey", 6.0, 14.0),
    Region("UAE", 5.0, 13.0),
    Region("Pakistan", 4.0, 12.0),
    Region("India", 3.5, 11.5),
    Region("Bangladesh", 3.0, 11.0),
    Region("Thailand", 2.0, 10.0),
    Region("Singapore", 1.0, 9.0),
    Region("China", 1.0, 9.0),
    Region("Taiwan", 1.0, 9.0),
    Region("Japan", 0.0, 8.0),
    Region("Korea", 0.0, 8.0)
  ]

  const Oceania: seq<Region> := [
    Region("Australia Western", 1.0, 9.0),
    Region("Australia Central", 23.5, 7.5),
    Region("Australia Eastern", 23.0, 7.0),
    Region("New Zealand", 21.0, 5.0)
  ]

  /** All 28 regions, in the order the classifier scans them. */
  const Regions: seq<Region> := NorthAmerica + SouthAmerica + Europe + Asia + Oceania

  /** A window whose start hour lies after its end hour crosses midnight UTC. */
  predicate CrossesMidnight(r: Region) {
    r.start > r.end
  }

  /** The table has 28 entries, every window bound is an hour of the day, and the
      three Oceania windows that cross midnight are the only ones that do. */
  lemma TableSize()
    ensures |Regions| == 28
  {
  }

  predicate WithinDay(r: Region) {
    0.0 <= r.start < 24.0 && 0.0 <= r.end < 24.0
  }

  lemma WindowBounds()
    ensures forall r | r in Regions :: WithinDay(r)
  {
    forall r | r in Regions ensures WithinDay(r) {
      if r in NorthAmerica {
      } else if r in SouthAmerica {
      } else if r in Europe {
      } else if r in Asia {
      } else {
        assert r in Oceania;
      }
    }
  }

  /** The windows that cross midnight are the last three entries: Australia
      Central, Australia Eastern and New Zealand. */
  lemma MidnightWindows()
    ensures forall j | 0 <= j < |Regions| :: CrossesMidnight(Regions[j]) <==> 25 <= j
    ensures Regions[25].name == "Australia Central" && Regions[26].name == "Australia Eastern"
    ensures Regions[27].name == "New Zealand"
  {
    TableSize();
    forall j | 0 <= j < |Regions| ensures CrossesMidnight(Regions[j]) <==> 25 <= j {
      EntryOfGroup(j);
    }
    EntryOfGroup(25);
    EntryOfGroup(26);
    EntryOfGroup(27);
  }

  /** No two entries of `t` share a name. */
  predicate DistinctNames(t: seq<Region>) {
    forall i, j | 0 <= i < j < |t| :: t[i].name != t[j].name
  }

  /** No entry of `a` has the name of an entry of `b`. */
  predicate NoSharedNames(a: seq<Region>, b: seq<Region>) {
    forall i, j | 0 <= i < |a| && 0 <= j < |b| :: a[i].name != b[j].name
  }

  lemma DistinctConcat(a: seq<Region>, b: seq<Region>)
    requires DistinctNames(a) && DistinctNames(b) && NoSharedNames(a, b)
    ensures DistinctNames(a + b)
  {
    forall i, j | 0 <= i < j < |a + b| ensures (a + b)[i].name != (a + b)[j].name {
      if j < |a| {
      } else if i < |a| {
        assert (a + b)[j] == b[j - |a|];
      } else {
        assert (a + b)[i] == b[i - |a|] && (a + b)[j] == b[j - |a|];
      }
    }
  }

  lemma NamesDistinctInGroups()
    ensures DistinctNames(NorthAmerica) && DistinctNames(SouthAmerica)
    ensures DistinctNames(Europe) && DistinctNames(Oceania)
  {
  }

  lemma NamesDistinctInAsia()
    ensures DistinctNames(Asia)
  {
    AsiaNamesDistinctFrom(0, 4);
    AsiaNamesDistinctFrom(4, 7);
    AsiaNamesDistinctFrom(7, 11);
  }

  /** The Asian entries at positions `lo` to `hi` - 1 have names different from
      every later Asian entry. */
  lemma AsiaNamesDistinctFrom(lo: int, hi: int)
    requires (lo, hi) in {(0, 4), (4, 7), (7, 11)}
    ensures forall i, j | lo <= i < hi && i < j < |Asia| :: Asia[i].name != Asia[j].name
  {
  }

  lemma NamesDisjointBeforeAsia()
    ensures NoSharedNames(NorthAmerica, SouthAmerica)
    ensures NoSharedNames(NorthAmerica + SouthAmerica, Europe)
  {
  }

  lemma NamesDisjointAsia()
    ensures NoSharedNames(NorthAmerica + SouthAmerica + Europe, Asia)
  {
  }

  lemma NamesDisjointOceania()
    ensures NoSharedNames(NorthAmerica + SouthAmerica + Europe + Asia, Oceania)
  {
  }

  /** No two entries share a name, so a name identifies its entry. */
  lemma NamesDistinct()
    ensures forall i, j | 0 <= i < j < |Regions| :: Regions[i].name != Regions[j].name
  {
    NamesDistinctInGroups();
    NamesDistinctInAsia();
    NamesDisjointBeforeAsia();
    NamesDisjointAsia();
    NamesDisjointOceania();
    DistinctConcat(NorthAmerica, SouthAmerica);
    DistinctConcat(NorthAmerica + SouthAmerica, Europe);
    DistinctConcat(NorthAmerica + SouthAmerica + Europe, Asia);
    DistinctConcat(NorthAmerica + SouthAmerica + Europe + Asia, Oceania);
    assert DistinctNames(Regions);
  }

  /** Which continent group, and which entry of it, table position `j` holds. */
  lemma EntryOfGroup(j: int)
    requires 0 <= j < |Regions|
    ensures j < 5 ==> Regions[j] in NorthAmerica
    ensures 5 <= j < 8 ==> Regions[j] in SouthAmerica
    ensures 8 <= j < 13 ==> Regions[j] == Europe[j - 8]
    ensures 13 <= j < 24 ==> Regions[j] in Asia
    ensures 24 <= j ==> Regions[j] == Oceania[j - 24]
  {
  }
}
