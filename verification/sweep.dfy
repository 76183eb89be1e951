/** One sweep of either scanner, from the peaks found at each centre to
    the sorted report (frqscan8.py:134-144, analyze6.py:63-72). Capture,
    FFT, squelch and `find_peaks` happen before this point: each visited
    centre arrives with its peaks already resolved to (frequency, power). */
module Sweep {
  import opened Hz
  import opened Util
  import opened Bands
  import opened Classifier
  import opened Config
  import opened StableSort

  /** A detected peak: absolute frequency in Hz and power in dB. */
  datatype Peak = Peak(freq: int, power: real)

  /** The peaks found while tuned to one centre, in `find_peaks` order. */
  datatype Capture = Capture(centre: int, peaks: seq<Peak>)

  /** What a scanner keeps: frqscan8 keeps peaks inside any scanned band
      and labels them, analyze6 keeps peaks inside its one range and does
      not label them. */
  datatype Scope = MultiBand(bands: seq<Band>) | SingleRange(start: int, end: int)

  /** One active-signal record. `service` is absent for analyze6. */
  datatype Signal = Signal(freq: int, power: real, stamp: string, service: Option<string>)

  /** The range test: frqscan8 asks whether some band of the table whose
      scan flag is 1 holds f, edges included; analyze6 whether f lies in
      its one range, edges included. */
  predicate InScope(scope: Scope, f: int): (r: bool)
    ensures scope.MultiBand? ==> (r <==>
      exists i :: 0 <= i < |scope.bands| && scope.bands[i].scan == 1
        && scope.bands[i].start <= f <= scope.bands[i].end)
  {
    match scope
    case MultiBand(bands) =>
      ScannedHolds(bands, f);
      exists b :: b in ScannedBands(bands) && InBand(b, f)
    case SingleRange(start, end) => start <= f <= end
  }

  /** Outside the DC-spike zone: strictly more than 10 kHz from the centre,
      on either side. */
  predicate ClearOfDc(centre: int, f: int): (r: bool)
    ensures r <==> f < centre - DcExclusion || centre + DcExclusion < f
  {
    Abs(f - centre) > DcExclusion
  }

  /** Peak acceptance in the source's own terms: in range, edges included,
      and not within 10 kHz of the centre. */
  predicate Accepts(scope: Scope, centre: int, f: int): (r: bool)
    ensures scope.MultiBand? ==> (r <==>
      && (exists i :: 0 <= i < |scope.bands| && scope.bands[i].scan == 1
            && scope.bands[i].start <= f <= scope.bands[i].end)
      && (f < centre - DcExclusion || centre + DcExclusion < f))
    ensures scope.SingleRange? ==> (r <==>
      && scope.start <= f <= scope.end
      && (f < centre - DcExclusion || centre + DcExclusion < f))
  {
    InScope(scope, f) && ClearOfDc(centre, f)
  }

  /** frqscan8 labels every record with a service name, analyze6 with none.
      A frqscan8 label is a channel-table name, a band service or "Unknown",
      "Unknown" whenever no table and no band matches; with the script's
      own table it is `get_service`. */
  function Label(scope: Scope, f: int): (r: Option<string>)
    ensures r.Some? <==> scope.MultiBand?
    ensures r.Some? ==> IsLabel(ChannelTables, scope.bands, r.value)
    ensures r.Some? && NoTableMatches(ChannelTables, f) && NoBandMatches(scope.bands, f) ==> r.value == UnknownLabel
    ensures scope == MultiBand(Table) ==> r == Some(Service(f))
  {
    match scope
    case MultiBand(bands) => Some(Classify(ChannelTables, bands, f))
    case SingleRange(_, _) => None
  }

  /** One active-signal record: the peak's frequency and power, the sweep's
      timestamp and, for frqscan8 only, the service at the peak's frequency. */
  function Record(scope: Scope, p: Peak, stamp: string): (r: Signal)
    ensures r.freq == p.freq && r.power == p.power && r.stamp == stamp
    ensures r.service.Some? <==> scope.MultiBand?
    ensures scope == MultiBand(Table) ==> r.service == Some(Service(p.freq))
  {
    Signal(p.freq, p.power, stamp, Label(scope, p.freq))
  }

  /** The peak is accepted at its centre and x is its record. */
  ghost predicate RecordOf(scope: Scope, centre: int, p: Peak, stamp: string, x: Signal)
  {
    Accepts(scope, centre, p.freq) && x == Record(scope, p, stamp)
  }

  /** `Accepts` at one centre, as a test on peaks. */
  function AcceptedAt(scope: Scope, centre: int): Peak -> bool
  {
    (p: Peak) => Accepts(scope, centre, p.freq)
  }

  /** `Record` with one scope and timestamp, as a map on peaks. */
  function RecordWith(scope: Scope, stamp: string): Peak -> Signal
  {
    (p: Peak) => Record(scope, p, stamp)
  }

  /** The records made at one centre, in peak order: the peaks filtered by
      acceptance and mapped to records, with the kept positions as witness. */
  function CollectPeaks(scope: Scope, centre: int, peaks: seq<Peak>, stamp: string): (r: seq<Signal>)
    ensures |r| <= |peaks|
    ensures forall x :: x in r <==> exists p :: p in peaks && RecordOf(scope, centre, p, stamp, x)
    ensures exists idx :: FilterMapAt(peaks, AcceptedAt(scope, centre), RecordWith(scope, stamp), r, idx)
  {
    if peaks == [] then
      assert FilterMapAt(peaks, AcceptedAt(scope, centre), RecordWith(scope, stamp), [], []);
      []
    else
      var rest := CollectPeaks(scope, centre, peaks[1..], stamp);
      var here := if Accepts(scope, centre, peaks[0].freq) then [Record(scope, peaks[0], stamp)] else [];
      CollectPeaksMembers(scope, centre, peaks, stamp, here, rest);
      FilterMapCons(peaks, AcceptedAt(scope, centre), RecordWith(scope, stamp), here, rest);
      here + rest
  }

  lemma CollectPeaksMembers(scope: Scope, centre: int, peaks: seq<Peak>, stamp: string, here: seq<Signal>, rest: seq<Signal>)
    requires peaks != []
    requires here == if Accepts(scope, centre, peaks[0].freq) then [Record(scope, peaks[0], stamp)] else []
    requires forall x :: x in rest <==> exists p :: p in peaks[1..] && RecordOf(scope, centre, p, stamp, x)
    ensures forall x :: x in here + rest <==> exists p :: p in peaks && RecordOf(scope, centre, p, stamp, x)
  {
    forall x
      ensures x in here + rest <==> exists p :: p in peaks && RecordOf(scope, centre, p, stamp, x)
    {
      if x in here {
        assert peaks[0] in peaks && RecordOf(scope, centre, peaks[0], stamp, x);
      }
      if x in rest {
        var p :| p in peaks[1..] && RecordOf(scope, centre, p, stamp, x);
        assert p in peaks;
      }
      if exists p :: p in peaks && RecordOf(scope, centre, p, stamp, x) {
        var p :| p in peaks && RecordOf(scope, centre, p, stamp, x);
        if p != peaks[0] {
          var i :| 0 <= i < |peaks| && peaks[i] == p;
          assert peaks[1..][i - 1] == p;
        }
      }
    }
  }

  /** Some peak of some capture is accepted and x is its record. */
  ghost predicate Detected(scope: Scope, captures: seq<Capture>, stamp: string, x: Signal)
  {
    exists i, p :: 0 <= i < |captures| && p in captures[i].peaks
      && RecordOf(scope, captures[i].centre, p, stamp, x)
  }

  /** `active_signals` before sorting: records in centre order, then peak
      order. */
  function Collect(scope: Scope, captures: seq<Capture>, stamp: string): (r: seq<Signal>)
    ensures forall x :: x in r <==> Detected(scope, captures, stamp, x)
  {
    if captures == [] then []
    else
      var here := CollectPeaks(scope, captures[0].centre, captures[0].peaks, stamp);
      var rest := Collect(scope, captures[1..], stamp);
      CollectMembers(scope, captures, stamp, here, rest);
      here + rest
  }

  lemma CollectMembers(scope: Scope, captures: seq<Capture>, stamp: string, here: seq<Signal>, rest: seq<Signal>)
    requires captures != []
    requires here == CollectPeaks(scope, captures[0].centre, captures[0].peaks, stamp)
    requires forall x :: x in rest <==> Detected(scope, captures[1..], stamp, x)
    ensures forall x :: x in here + rest <==> Detected(scope, captures, stamp, x)
  {
    forall x
      ensures x in here + rest <==> Detected(scope, captures, stamp, x)
    {
      if x in here {
        var p :| p in captures[0].peaks && RecordOf(scope, captures[0].centre, p, stamp, x);
        assert Detected(scope, captures, stamp, x);
      }
      if x in rest {
        var i, p :| 0 <= i < |captures[1..]| && p in captures[1..][i].peaks
          && RecordOf(scope, captures[1..][i].centre, p, stamp, x);
        assert captures[1..][i] == captures[i + 1];
        assert Detected(scope, captures, stamp, x);
      }
      if Detected(scope, captures, stamp, x) {
        var i, p :| 0 <= i < |captures| && p in captures[i].peaks
          && RecordOf(scope, captures[i].centre, p, stamp, x);
        if i > 0 {
          assert captures[1..][i - 1] == captures[i];
          assert Detected(scope, captures[1..], stamp, x);
        }
      }
    }
  }

  /** Collection keeps centre order: collecting a concatenation of visits
      collects the first part, then the second. */
  lemma {:induction false} CollectAppend(scope: Scope, a: seq<Capture>, b: seq<Capture>, stamp: string)
    ensures Collect(scope, a + b, stamp) == Collect(scope, a, stamp) + Collect(scope, b, stamp)
  {
    if a == [] {
      assert a + b == b;
    } else {
      var here := CollectPeaks(scope, a[0].centre, a[0].peaks, stamp);
      CollectCons(scope, a, b, stamp);
      CollectCons(scope, a, [], stamp);
      assert a + [] == a && a[1..] + [] == a[1..];
      CollectAppend(scope, a[1..], b, stamp);
      ConcatAssoc(here, Collect(scope, a[1..], stamp), Collect(scope, b, stamp));
    }
  }

  lemma CollectCons(scope: Scope, a: seq<Capture>, b: seq<Capture>, stamp: string)
    requires a != []
    ensures Collect(scope, a + b, stamp)
      == CollectPeaks(scope, a[0].centre, a[0].peaks, stamp) + Collect(scope, a[1..] + b, stamp)
  {
    assert (a + b)[0] == a[0];
    assert (a + b)[1..] == a[1..] + b;
  }

  /** One more centre of the sweep loop appends that centre's records,
      in peak order, behind everything collected so far. */
  lemma CollectNextCentre(scope: Scope, visited: seq<Capture>, c: Capture, stamp: string)
    ensures Collect(scope, visited + [c], stamp)
      == Collect(scope, visited, stamp) + CollectPeaks(scope, c.centre, c.peaks, stamp)
  {
    CollectAppend(scope, visited, [c], stamp);
    assert [c][1..] == [];
  }

  function FreqOf(s: Signal): int
  {
    s.freq
  }

  /** The sweep's report: the collected records sorted by frequency with
      a stable sort. It holds exactly the accepted peaks' records, as a
      permutation of the collection order, ascending by frequency, with
      records of equal frequency in collection order. */
  function Report(scope: Scope, captures: seq<Capture>, stamp: string): (r: seq<Signal>)
    ensures forall x :: x in r <==> Detected(scope, captures, stamp, x)
    ensures SortedBy(r, FreqOf)
    ensures multiset(r) == multiset(Collect(scope, captures, stamp))
    ensures SameRuns(r, Collect(scope, captures, stamp), FreqOf)
  {
    var collected := Collect(scope, captures, stamp);
    var r := SortBy(collected, FreqOf);
    assert forall x :: x in r <==> x in multiset(collected);
    r
  }

  /** Any stable ascending ordering of the collected records is the report. */
  lemma ReportIsTheStableSort(scope: Scope, captures: seq<Capture>, stamp: string, r: seq<Signal>)
    requires SortedBy(r, FreqOf)
    requires SameRuns(r, Collect(scope, captures, stamp), FreqOf)
    ensures r == Report(scope, captures, stamp)
  {
    var report := Report(scope, captures, stamp);
    var collected := Collect(scope, captures, stamp);
    forall k
      ensures WithKey(r, FreqOf, k) == WithKey(report, FreqOf, k)
    {
      assert WithKey(r, FreqOf, k) == WithKey(collected, FreqOf, k);
      assert WithKey(report, FreqOf, k) == WithKey(collected, FreqOf, k);
    }
    StableSortUnique(r, report, FreqOf);
  }

  /** A collection already ascending by frequency is reported as collected. */
  lemma SortedCollectionUnchanged(scope: Scope, captures: seq<Capture>, stamp: string)
    requires SortedBy(Collect(scope, captures, stamp), FreqOf)
    ensures Report(scope, captures, stamp) == Collect(scope, captures, stamp)
  {
    ReportIsTheStableSort(scope, captures, stamp, Collect(scope, captures, stamp));
  }

  /** Every record of frqscan8's report carries the lookup's label for its
      own frequency (with the script's table, `get_service`), lies in a
      scanned band, and copies a peak found at some centre whose DC zone
      it is clear of. */
  lemma MultiBandRecordsLabelled(bands: seq<Band>, captures: seq<Capture>, stamp: string, x: Signal)
    ensures x in Report(MultiBand(bands), captures, stamp) ==>
      && x.service == Some(Classify(ChannelTables, bands, x.freq)) && x.stamp == stamp
      && (exists b :: b in bands && IsScanned(b) && InBand(b, x.freq))
      && (exists i, p ::
            && 0 <= i < |captures| && p in captures[i].peaks
            && p.freq == x.freq && p.power == x.power && ClearOfDc(captures[i].centre, x.freq))
  {
    if x in Report(MultiBand(bands), captures, stamp) {
      var i, p :| 0 <= i < |captures| && p in captures[i].peaks
        && RecordOf(MultiBand(bands), captures[i].centre, p, stamp, x);
    }
  }

  /** analyze6's acceptance test is frqscan8's with one scanned band
      `[start, end]`. */
  lemma SingleRangeIsOneScannedBand(start: int, end: int, service: string, centre: int, f: int)
    ensures Accepts(SingleRange(start, end), centre, f)
        <==> Accepts(MultiBand([Band(start, end, 1, service)]), centre, f)
  {
    var b := Band(start, end, 1, service);
    assert ScannedBands([b]) == [b];
  }

  /** A single peak at a single centre is reported, alone, exactly when it
      is accepted. */
  lemma SinglePeakReport(scope: Scope, centre: int, p: Peak, stamp: string)
    ensures Report(scope, [Capture(centre, [p])], stamp)
      == if Accepts(scope, centre, p.freq) then [Record(scope, p, stamp)] else []
  {
    var captures := [Capture(centre, [p])];
    var collected := if Accepts(scope, centre, p.freq) then [Record(scope, p, stamp)] else [];
    assert captures[1..] == [];
    assert [p][1..] == [];
    assert CollectPeaks(scope, centre, [p], stamp) == collected;
    assert Collect(scope, captures, stamp) == collected;
    if collected != [] {
      assert collected[1..] == [];
    }
  }

  /** A peak exactly 10 kHz from its centre is a DC spike and produces no
      record; 1 Hz further out it is reported. */
  lemma DcZoneIsClosed(scope: Scope, centre: int, power: real, stamp: string)
    requires InScope(scope, centre + DcExclusion) && InScope(scope, centre + DcExclusion + 1)
    ensures Report(scope, [Capture(centre, [Peak(centre + DcExclusion, power)])], stamp) == []
    ensures Report(scope, [Capture(centre, [Peak(centre + DcExclusion + 1, power)])], stamp)
      == [Record(scope, Peak(centre + DcExclusion + 1, power), stamp)]
  {
    SinglePeakReport(scope, centre, Peak(centre + DcExclusion, power), stamp);
    SinglePeakReport(scope, centre, Peak(centre + DcExclusion + 1, power), stamp);
  }

  /** frqscan8 drops a peak that no scanned band holds, whatever the
      unscanned bands say. */
  lemma OutsideScannedBandsDropped(bands: seq<Band>, centre: int, p: Peak, stamp: string)
    requires forall i :: 0 <= i < |bands| && InBand(bands[i], p.freq) ==> !IsScanned(bands[i])
    ensures !InScope(MultiBand(bands), p.freq)
    ensures Report(MultiBand(bands), [Capture(centre, [p])], stamp) == []
  {
    forall b | b in ScannedBands(bands)
      ensures !InBand(b, p.freq)
    {
      var i :| 0 <= i < |bands| && bands[i] == b;
    }
    EmptyWithoutMembers(Report(MultiBand(bands), [Capture(centre, [p])], stamp));
  }

  /** 190 MHz lies only in the unscanned TV band, so frqscan8 never
      reports it. */
  lemma UnscannedBandPeakDropped(centre: int, power: real, stamp: string)
    ensures InBand(Table[5], 190_000_000) && !IsScanned(Table[5])
    ensures Report(MultiBand(Table), [Capture(centre, [Peak(190_000_000, power)])], stamp) == []
  {
    OutsideScannedBandsDropped(Table, centre, Peak(190_000_000, power), stamp);
  }

  /** Two neighbouring centres of analyze6's plan over 450-470 MHz, each
      with its peaks in ascending frequency, the order `find_peaks` gives.
      The two windows only touch, at 462.288 MHz, so the collection is
      already in frequency order: the DC spike at 463.318 MHz is dropped and
      the sort leaves the rest as collected. */
  lemma SingleRangeSweepExample(stamp: string)
    ensures Report(SingleRange(RangeStart, RangeEnd), ExampleCaptures, stamp)
      == [Signal(460_500_000, -35.0, stamp, None),
          Signal(461_300_000, -40.0, stamp, None),
          Signal(462_550_000, -30.0, stamp, None)]
  {
    var collected := Collect(SingleRange(RangeStart, RangeEnd), ExampleCaptures, stamp);
    ExampleCollected(stamp);
    forall i, j | 0 <= i < j < |collected|
      ensures FreqOf(collected[i]) <= FreqOf(collected[j])
    {
    }
    SortedCollectionUnchanged(SingleRange(RangeStart, RangeEnd), ExampleCaptures, stamp);
  }

  /** The captures of `SingleRangeSweepExample`, at the sixth and seventh
      centres of analyze6's plan. */
  const ExampleCaptures: seq<Capture> := [
    Capture(461_264_000, [Peak(460_500_000, -35.0), Peak(461_300_000, -40.0)]),
    Capture(463_312_000, [Peak(462_550_000, -30.0), Peak(463_318_000, -20.0)])]

  /** Collection keeps centre order, then peak order, and drops the DC
      spike 6 kHz from the second centre. */
  lemma ExampleCollected(stamp: string)
    ensures Collect(SingleRange(RangeStart, RangeEnd), ExampleCaptures, stamp)
      == [Signal(460_500_000, -35.0, stamp, None),
          Signal(461_300_000, -40.0, stamp, None),
          Signal(462_550_000, -30.0, stamp, None)]
  {
    var scope := SingleRange(RangeStart, RangeEnd);
    var a := Signal(460_500_000, -35.0, stamp, None);
    var b := Signal(461_300_000, -40.0, stamp, None);
    var c := Signal(462_550_000, -30.0, stamp, None);
    assert CollectPeaks(scope, ExampleCaptures[0].centre, ExampleCaptures[0].peaks, stamp) == [a, b];
    assert CollectPeaks(scope, ExampleCaptures[1].centre, ExampleCaptures[1].peaks, stamp) == [c];
    assert Collect(scope, ExampleCaptures[1..], stamp) == [c];
  }

  /** The last window of the scanned 144-148 MHz band, centred at 147.072
      MHz, and the first window of the scanned 148-174 MHz band, centred at
      149.024 MHz, overlap on 148.0-148.096 MHz. Each capture lists its
      peaks in ascending frequency. */
  const OverlapCaptures: seq<Capture> := [
    Capture(147_072_000, [Peak(147_500_000, -40.0), Peak(148_090_000, -30.0)]),
    Capture(149_024_000, [Peak(148_020_000, -35.0), Peak(149_500_000, -45.0)])]

  /** Where frqscan8's windows overlap, the sort does reorder: 148.09 MHz,
      seen near the top of the first window, is collected before 148.02
      MHz, seen near the bottom of the next, and the report swaps them.
      Each record carries the name of the band it lies in. (`bands` is the
      script's table.) */
  lemma OverlapSweepExample(bands: seq<Band>, stamp: string)
    requires bands == Table
    ensures Report(MultiBand(bands), OverlapCaptures, stamp)
      == [Signal(147_500_000, -40.0, stamp, Some("Amateur Radio (2m)")),
          Signal(148_020_000, -35.0, stamp, Some("Land Mobile")),
          Signal(148_090_000, -30.0, stamp, Some("Land Mobile")),
          Signal(149_500_000, -45.0, stamp, Some("Land Mobile"))]
  {
    assert bands[3] == Band(144_000_000, 148_000_000, 1, "Amateur Radio (2m)");
    assert bands[4] == Band(148_000_000, 174_000_000, 1, "Land Mobile");
    OverlapRecord(bands, 147_072_000, 147_500_000, -40.0, stamp, 3);
    OverlapRecord(bands, 147_072_000, 148_090_000, -30.0, stamp, 4);
    OverlapRecord(bands, 149_024_000, 148_020_000, -35.0, stamp, 4);
    OverlapRecord(bands, 149_024_000, 149_500_000, -45.0, stamp, 4);
    CrossedPeaksSwap(MultiBand(bands), 147_072_000, Peak(147_500_000, -40.0), Peak(148_090_000, -30.0),
      149_024_000, Peak(148_020_000, -35.0), Peak(149_500_000, -45.0), stamp);
  }

  /** When the second peak of one capture lies above the first peak of the
      next, the two are collected in capture order and reported the other
      way round. */
  lemma CrossedPeaksSwap(scope: Scope, c1: int, p1: Peak, p2: Peak, c2: int, q1: Peak, q2: Peak, stamp: string)
    requires Accepts(scope, c1, p1.freq) && Accepts(scope, c1, p2.freq)
    requires Accepts(scope, c2, q1.freq) && Accepts(scope, c2, q2.freq)
    requires p1.freq < q1.freq < p2.freq < q2.freq
    ensures Collect(scope, [Capture(c1, [p1, p2]), Capture(c2, [q1, q2])], stamp)
      == [Record(scope, p1, stamp), Record(scope, p2, stamp), Record(scope, q1, stamp), Record(scope, q2, stamp)]
    ensures Report(scope, [Capture(c1, [p1, p2]), Capture(c2, [q1, q2])], stamp)
      == [Record(scope, p1, stamp), Record(scope, q1, stamp), Record(scope, p2, stamp), Record(scope, q2, stamp)]
  {
    CollectTwoByTwo(scope, c1, p1, p2, c2, q1, q2, stamp);
    CrossedRuns(Record(scope, p1, stamp), Record(scope, p2, stamp), Record(scope, q1, stamp), Record(scope, q2, stamp));
    ReportIsTheStableSort(scope, [Capture(c1, [p1, p2]), Capture(c2, [q1, q2])], stamp,
      [Record(scope, p1, stamp), Record(scope, q1, stamp), Record(scope, p2, stamp), Record(scope, q2, stamp)]);
  }

  /** A peak above the start of scanned band i of the script's table,
      inside that band, away from the channel tables and clear of its
      centre's DC zone, is accepted and its record carries that band's
      name. */
  lemma OverlapRecord(bands: seq<Band>, centre: int, f: int, power: real, stamp: string, i: nat)
    requires bands == Table
    requires i < |bands| && IsScanned(bands[i]) && bands[i].start < f <= bands[i].end
    requires f < 462_000_000 || 468_000_000 < f
    requires ClearOfDc(centre, f)
    ensures Accepts(MultiBand(bands), centre, f)
    ensures Record(MultiBand(bands), Peak(f, power), stamp) == Signal(f, power, stamp, Some(bands[i].service))
  {
    TableContiguous();
    FirstBandAboveStart(bands, f, i);
    ChannelsInUhf(f);
  }

  /** One capture of two accepted peaks gives their records in peak order. */
  lemma CollectPair(scope: Scope, centre: int, p: Peak, q: Peak, stamp: string)
    requires Accepts(scope, centre, p.freq) && Accepts(scope, centre, q.freq)
    ensures CollectPeaks(scope, centre, [p, q], stamp) == [Record(scope, p, stamp), Record(scope, q, stamp)]
  {
    assert [p, q][1..] == [q];
    assert [q][1..] == [];
  }

  /** Two captures of two accepted peaks each are collected in capture
      order, then peak order. */
  lemma CollectTwoByTwo(scope: Scope, c1: int, p1: Peak, p2: Peak, c2: int, q1: Peak, q2: Peak, stamp: string)
    requires Accepts(scope, c1, p1.freq) && Accepts(scope, c1, p2.freq)
    requires Accepts(scope, c2, q1.freq) && Accepts(scope, c2, q2.freq)
    ensures Collect(scope, [Capture(c1, [p1, p2]), Capture(c2, [q1, q2])], stamp)
      == [Record(scope, p1, stamp), Record(scope, p2, stamp), Record(scope, q1, stamp), Record(scope, q2, stamp)]
  {
    var first := Capture(c1, [p1, p2]);
    var second := Capture(c2, [q1, q2]);
    var captures := [first, second];
    assert captures[1..] == [second];
    assert [second][1..] == [];
    calc {
      Collect(scope, captures, stamp);
      CollectPeaks(scope, c1, [p1, p2], stamp) + Collect(scope, [second], stamp);
      CollectPeaks(scope, c1, [p1, p2], stamp) + (CollectPeaks(scope, c2, [q1, q2], stamp) + []);
      { CollectPair(scope, c1, p1, p2, stamp);
        CollectPair(scope, c2, q1, q2, stamp); }
      [Record(scope, p1, stamp), Record(scope, p2, stamp)] + ([Record(scope, q1, stamp), Record(scope, q2, stamp)] + []);
      [Record(scope, p1, stamp), Record(scope, p2, stamp), Record(scope, q1, stamp), Record(scope, q2, stamp)];
    }
  }

  /** Keys a < c < b < d: the order a, c, b, d is ascending and has the
      same runs of equal keys as a, b, c, d. */
  lemma CrossedRuns(a: Signal, b: Signal, c: Signal, d: Signal)
    requires a.freq < c.freq < b.freq < d.freq
    ensures SortedBy([a, c, b, d], FreqOf)
    ensures SameRuns([a, c, b, d], [a, b, c, d], FreqOf)
  {
    var sorted := [a, c, b, d];
    forall i, j | 0 <= i < j < |sorted|
      ensures FreqOf(sorted[i]) <= FreqOf(sorted[j])
    {
    }
    SwapKeepsRuns([a], b, c, [d], FreqOf);
    assert [a] + [b, c] + [d] == [a, b, c, d];
    assert [a] + [c, b] + [d] == sorted;
  }
}
