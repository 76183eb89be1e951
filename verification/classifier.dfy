/** `get_service` (frqscan8.py:60-79): a tiered, first-match-wins lookup.
    Exact channel tables are tried first, in a fixed order, with a strict
    1 kHz tolerance; then the band table, inclusive at both ends; then
    "Unknown". */
module Classifier {
  import opened Hz
  import opened Util
  import opened Bands

  /** A list of exact channel frequencies sharing one label. */
  datatype ChannelTable = ChannelTable(name: string, channels: seq<int>)

  const Tolerance: int := 1000
  const UnknownLabel: string := "Unknown"

  /** `abs(freq - f) < tolerance`: strictly inside the tolerance window. */
  predicate NearChannel(f: int, channel: int)
  {
    Abs(f - channel) < Tolerance
  }

  predicate MatchesTable(t: ChannelTable, f: int)
  {
    exists c :: c in t.channels && NearChannel(f, c)
  }

  const GmrsPrimary: ChannelTable := ChannelTable("GMRS Primary", [
    462_550_000, 462_575_000, 462_600_000, 462_625_000,
    462_650_000, 462_675_000, 462_700_000, 462_725_000])
  const GmrsRepeaterIn: ChannelTable := ChannelTable("GMRS Repeater Input", [
    467_550_000, 467_575_000, 467_600_000, 467_625_000,
    467_650_000, 467_675_000, 467_700_000, 467_725_000])
  const FrsGmrsShared: ChannelTable := ChannelTable("FRS/GMRS Shared", [
    462_562_500, 462_587_500, 462_612_500, 462_637_500,
    462_662_500, 462_687_500, 462_712_500])
  const FrsOnly: ChannelTable := ChannelTable("FRS", [
    467_562_500, 467_587_500, 467_612_500, 467_637_500,
    467_662_500, 467_687_500, 467_712_500])

  /** The order in which the channel tables are consulted. */
  const ChannelTables: seq<ChannelTable> := [GmrsPrimary, GmrsRepeaterIn, FrsGmrsShared, FrsOnly]

  /** Table i is the first one that matches f. */
  predicate IsFirstTable(tables: seq<ChannelTable>, f: int, i: int)
  {
    && 0 <= i < |tables|
    && MatchesTable(tables[i], f)
    && forall j :: 0 <= j < i ==> !MatchesTable(tables[j], f)
  }

  /** Band i is the first one that holds f. */
  predicate IsFirstBand(bands: seq<Band>, f: int, i: int)
  {
    && 0 <= i < |bands|
    && InBand(bands[i], f)
    && forall j :: 0 <= j < i ==> !InBand(bands[j], f)
  }

  predicate NoTableMatches(tables: seq<ChannelTable>, f: int)
  {
    forall i :: 0 <= i < |tables| ==> !MatchesTable(tables[i], f)
  }

  predicate NoBandMatches(bands: seq<Band>, f: int)
  {
    forall i :: 0 <= i < |bands| ==> !InBand(bands[i], f)
  }

  /** Index of the first matching channel table, if any. */
  function FirstTable(tables: seq<ChannelTable>, f: int): (r: Option<nat>)
    ensures r.None? <==> NoTableMatches(tables, f)
    ensures r.Some? ==> IsFirstTable(tables, f, r.value)
  {
    if tables == [] then None
    else if MatchesTable(tables[0], f) then Some(0)
    else match FirstTable(tables[1..], f)
      case None => None
      case Some(i) => Some(i + 1)
  }

  /** Index of the first band holding f, if any. */
  function FirstBand(bands: seq<Band>, f: int): (r: Option<nat>)
    ensures r.None? <==> NoBandMatches(bands, f)
    ensures r.Some? ==> IsFirstBand(bands, f, r.value)
  {
    if bands == [] then None
    else if InBand(bands[0], f) then Some(0)
    else match FirstBand(bands[1..], f)
      case None => None
      case Some(i) => Some(i + 1)
  }

  /** The tiered lookup over arbitrary tables. Every band is consulted,
      whatever its scan flag. */
  function Classify(tables: seq<ChannelTable>, bands: seq<Band>, f: int): (r: string)
    ensures IsLabel(tables, bands, r)
    ensures forall i :: IsFirstTable(tables, f, i) ==> r == tables[i].name
    ensures NoTableMatches(tables, f) ==>
      forall i :: IsFirstBand(bands, f, i) ==> r == bands[i].service
    ensures NoTableMatches(tables, f) && NoBandMatches(bands, f) ==> r == UnknownLabel
  {
    match FirstTable(tables, f)
    case Some(i) => tables[i].name
    case None =>
      match FirstBand(bands, f)
      case Some(i) => bands[i].service
      case None => UnknownLabel
  }

  /** A channel table's name, a band's service, or "Unknown". */
  predicate IsLabel(tables: seq<ChannelTable>, bands: seq<Band>, s: string)
  {
    || s == UnknownLabel
    || (exists i :: 0 <= i < |tables| && s == tables[i].name)
    || (exists i :: 0 <= i < |bands| && s == bands[i].service)
  }

  /** `get_service` with the script's own tables. It answers "Unknown"
      exactly below 100 MHz and above 1000 MHz, the span of the band table,
      and otherwise one of the tables' labels. */
  function Service(f: int): (r: string)
    ensures IsLabel(ChannelTables, Table, r)
    ensures r == UnknownLabel <==> f < 100_000_000 || 1000_000_000 < f
  {
    LabelsKnown();
    ClassifyUnknownIff(ChannelTables, Table, f);
    TableCover(f);
    assert f < 100_000_000 || 1000_000_000 < f ==> NoTableMatches(ChannelTables, f) by {
      if f < 100_000_000 || 1000_000_000 < f {
        ChannelsInUhf(f);
      }
    }
    Classify(ChannelTables, Table, f)
  }

  /** 462.55 MHz lies in the 450-470 MHz "Land Mobile" band, but the channel
      tables are consulted first. */
  lemma ChannelTableBeatsBand()
    ensures InBand(Table[11], 462_550_000) && Table[11].service == "Land Mobile"
    ensures Service(462_550_000) == "GMRS Primary"
  {
    assert NearChannel(462_550_000, GmrsPrimary.channels[0]);
    assert IsFirstTable(ChannelTables, 462_550_000, 0);
  }

  /** The tolerance is strict: 999 Hz either side of a channel still
      matches it. */
  lemma ToleranceInside()
    ensures Service(462_550_999) == "GMRS Primary"
    ensures Service(462_549_001) == "GMRS Primary"
  {
    NearChannelGetsTableName(0, 462_550_000, 462_550_999);
    NearChannelGetsTableName(0, 462_550_000, 462_549_001);
  }

  /** No channel of the four tables is within tolerance of f. */
  lemma FarFromEveryChannel(f: int)
    requires f == 462_551_000 || f == 462_549_000
    ensures NoTableMatches(ChannelTables, f)
  {
    assert !MatchesTable(GmrsPrimary, f);
    assert !MatchesTable(GmrsRepeaterIn, f);
    assert !MatchesTable(FrsGmrsShared, f);
    assert !MatchesTable(FrsOnly, f);
  }

  /** Exactly 1000 Hz from the nearest channel, so strictly within 1 kHz of
      none, falls through to the band table. */
  lemma ToleranceBoundaryFallsThrough()
    ensures NoTableMatches(ChannelTables, 462_551_000)
    ensures Service(462_551_000) == "Land Mobile"
    ensures NoTableMatches(ChannelTables, 462_549_000)
    ensures Service(462_549_000) == "Land Mobile"
  {
    FarFromEveryChannel(462_551_000);
    FarFromEveryChannel(462_549_000);
    assert IsFirstBand(Table, 462_551_000, 11);
    assert IsFirstBand(Table, 462_549_000, 11);
  }

  /** Every channel entry of every table, in table order. */
  predicate ChannelOf(i: int, c: int)
  {
    0 <= i < |ChannelTables| && c in ChannelTables[i].channels
  }

  /** Channels of different tables are at least 2 kHz apart, so no frequency
      is within tolerance of two tables at once. */
  lemma ChannelsApart(i: int, c: int, j: int, d: int)
    requires ChannelOf(i, c) && ChannelOf(j, d) && i != j
    ensures Abs(c - d) >= 2 * Tolerance
  {
    var m := RasterIndex(i, c);
    var n := RasterIndex(j, d);
  }

  /** The lowest channel of each table. */
  function RasterBase(i: int): int
  {
    if i == 0 then 462_550_000
    else if i == 1 then 467_550_000
    else if i == 2 then 462_562_500
    else 467_562_500
  }

  /** Every table is a run of channels on a 25 kHz raster: GMRS channels sit
      on whole multiples above 462.55 or 467.55 MHz, FRS channels half a step
      off them. */
  lemma RasterIndex(i: int, c: int) returns (k: int)
    requires ChannelOf(i, c)
    ensures 0 <= k < 8 && c == RasterBase(i) + 25_000 * k
  {
    var channels := ChannelTables[i].channels;
    k :| 0 <= k < |channels| && channels[k] == c;
  }

  /** Anything strictly within 1 kHz of a channel gets that channel's table
      label, whichever table it is in. */
  lemma NearChannelGetsTableName(i: int, c: int, f: int)
    requires ChannelOf(i, c) && NearChannel(f, c)
    ensures Service(f) == ChannelTables[i].name
  {
    forall j | 0 <= j < i
      ensures !MatchesTable(ChannelTables[j], f)
    {
      if MatchesTable(ChannelTables[j], f) {
        var d :| d in ChannelTables[j].channels && NearChannel(f, d);
        ChannelsApart(i, c, j, d);
      }
    }
    assert IsFirstTable(ChannelTables, f, i);
  }

  /** Band fallback is first-match in table order and inclusive at both
      ends: 108 MHz closes "FM Broadcasting" and opens "Aviation". */
  lemma SharedBoundaryGoesToEarlierBand()
    ensures InBand(Table[0], 108_000_000) && InBand(Table[1], 108_000_000)
    ensures Service(108_000_000) == "FM Broadcasting"
    ensures Service(100_000_000) == "FM Broadcasting"
    ensures Service(1000_000_000) == "Aviation"
  {
    ChannelsInUhf(108_000_000);
    ChannelsInUhf(100_000_000);
    ChannelsInUhf(1000_000_000);
    assert IsFirstBand(Table, 108_000_000, 0);
    assert IsFirstBand(Table, 100_000_000, 0);
    assert IsFirstBand(Table, 1000_000_000, 20);
  }

  /** No channel is within tolerance of anything outside 462-468 MHz. */
  lemma ChannelsInUhf(f: int)
    requires f < 462_000_000 || 468_000_000 < f
    ensures NoTableMatches(ChannelTables, f)
  {
  }

  /** The fallback ignores the scan flag: the unscanned TV band 174-216 MHz
      still labels everything above 174 MHz up to and including 216 MHz. */
  lemma UnscannedBandStillLabels(f: int)
    requires 174_000_000 < f <= 216_000_000
    ensures !IsScanned(Table[5])
    ensures Service(f) == "TV Broadcasting"
  {
    ChannelsInUhf(f);
    assert IsFirstBand(Table, f, 5);
  }

  /** In a contiguous table a band holding f above its own start is the
      first band holding f: every earlier band ends at or below that start. */
  lemma FirstBandAboveStart(bands: seq<Band>, f: int, i: int)
    requires Contiguous(bands) && 0 <= i < |bands|
    requires bands[i].start < f <= bands[i].end
    ensures IsFirstBand(bands, f, i)
  {
    forall j | 0 <= j < i
      ensures !InBand(bands[j], f)
    {
      StartsAscend(bands, j + 1, i);
    }
  }

  /** When no table label and no band service is itself "Unknown", the
      lookup answers "Unknown" exactly when nothing matches. */
  lemma ClassifyUnknownIff(tables: seq<ChannelTable>, bands: seq<Band>, f: int)
    requires forall i :: 0 <= i < |tables| ==> tables[i].name != UnknownLabel
    requires forall i :: 0 <= i < |bands| ==> bands[i].service != UnknownLabel
    ensures Classify(tables, bands, f) == UnknownLabel
        <==> NoTableMatches(tables, f) && NoBandMatches(bands, f)
  {
  }

  /** No label of the script's tables is "Unknown". */
  lemma LabelsKnown()
    ensures forall i :: 0 <= i < |ChannelTables| ==> ChannelTables[i].name != UnknownLabel
    ensures forall i :: 0 <= i < |Table| ==> Table[i].service != UnknownLabel
  {
    assert forall i :: 0 <= i < |Table| ==> |Table[i].service| != |UnknownLabel|;
  }
}
