/** The allocation table of frqscan8.py:8-30: frequency ranges with a scan
    flag and a service label. */
module Bands {

  /** One allocation. `scan` is the integer flag of the table; a band is
      swept only when it equals 1. */
  datatype Band = Band(start: int, end: int, scan: int, service: string)

  /** Inclusive at both ends, as `band['start'] <= freq <= band['end']`. */
  predicate InBand(b: Band, f: int)
  {
    b.start <= f <= b.end
  }

  predicate IsScanned(b: Band)
  {
    b.scan == 1
  }

  const Table: seq<Band> := [
    Band(100_000_000, 108_000_000, 0, "FM Broadcasting"),
    Band(108_000_000, 137_000_000, 0, "Aviation"),
    Band(137_000_000, 144_000_000, 1, "Military"),
    Band(144_000_000, 148_000_000, 1, "Amateur Radio (2m)"),
    Band(148_000_000, 174_000_000, 1, "Land Mobile"),
    Band(174_000_000, 216_000_000, 0, "TV Broadcasting"),
    Band(216_000_000, 220_000_000, 1, "Maritime"),
    Band(220_000_000, 225_000_000, 1, "Amateur Radio (1.25m)"),
    Band(225_000_000, 400_000_000, 1, "Military"),
    Band(400_000_000, 420_000_000, 1, "Government"),
    Band(420_000_000, 450_000_000, 1, "Amateur Radio (70cm)"),
    Band(450_000_000, 470_000_000, 1, "Land Mobile"),
    Band(470_000_000, 512_000_000, 0, "TV Broadcasting"),
    Band(512_000_000, 698_000_000, 0, "TV Broadcasting"),
    Band(698_000_000, 806_000_000, 0, "Wireless Communications"),
    Band(806_000_000, 896_000_000, 1, "Cellular/Public Safety"),
    Band(896_000_000, 901_000_000, 1, "Cellular"),
    Band(901_000_000, 902_000_000, 1, "Paging"),
    Band(902_000_000, 928_000_000, 1, "ISM/Amateur Radio"),
    Band(928_000_000, 960_000_000, 0, "Cellular"),
    Band(960_000_000, 1000_000_000, 1, "Aviation")
  ]

  /** `[band for band in bands if band['scan'] == 1]`: the scanned bands,
      in table order. */
  function ScannedBands(bands: seq<Band>): (r: seq<Band>)
    ensures forall b :: b in r <==> b in bands && IsScanned(b)
    ensures forall i :: 0 <= i < |r| ==> IsScanned(r[i])
    ensures |r| <= |bands|
  {
    if bands == [] then []
    else if IsScanned(bands[0]) then [bands[0]] + ScannedBands(bands[1..])
    else ScannedBands(bands[1..])
  }

  /** Filtering keeps table order: filtering a concatenation filters each
      part in turn. With the membership clause above, this pins the result
      down to the scanned bands in the order the table lists them. */
  lemma {:induction false} ScannedBandsAppend(a: seq<Band>, b: seq<Band>)
    ensures ScannedBands(a + b) == ScannedBands(a) + ScannedBands(b)
  {
    if a == [] {
      assert a + b == b;
    } else {
      assert (a + b)[0] == a[0];
      assert (a + b)[1..] == a[1..] + b;
      ScannedBandsAppend(a[1..], b);
    }
  }

  /** Some scanned band holds f exactly when some band of the table has
      scan flag 1 and holds f. */
  lemma ScannedHolds(bands: seq<Band>, f: int)
    ensures (exists b :: b in ScannedBands(bands) && InBand(b, f))
        <==> exists i :: 0 <= i < |bands| && IsScanned(bands[i]) && InBand(bands[i], f)
  {
    if exists b :: b in ScannedBands(bands) && InBand(b, f) {
      var b :| b in ScannedBands(bands) && InBand(b, f);
      var i :| 0 <= i < |bands| && bands[i] == b;
    }
    if exists i :: 0 <= i < |bands| && IsScanned(bands[i]) && InBand(bands[i], f) {
      var i :| 0 <= i < |bands| && IsScanned(bands[i]) && InBand(bands[i], f);
      assert bands[i] in ScannedBands(bands);
    }
  }

  /** Each band is non-empty and starts where the previous one ends. */
  predicate Contiguous(bands: seq<Band>)
  {
    && (forall i :: 0 <= i < |bands| ==> bands[i].start < bands[i].end)
    && (forall i :: 0 <= i < |bands| - 1 ==> bands[i].end == bands[i + 1].start)
  }

  lemma TableContiguous()
    ensures Contiguous(Table)
  {
    assert forall i :: 0 <= i < |Table| ==> Table[i].start < Table[i].end;
    assert forall i :: 0 <= i < |Table| - 1 ==> Table[i].end == Table[i + 1].start;
  }

  /** A contiguous table covers exactly the range from its first start to its
      last end: some band holds f if and only if f lies in that range. */
  lemma {:induction false} ContiguousCover(bands: seq<Band>, f: int)
    requires Contiguous(bands) && bands != []
    ensures (exists i :: 0 <= i < |bands| && InBand(bands[i], f))
        <==> bands[0].start <= f <= bands[|bands| - 1].end
  {
    if |bands| == 1 {
    } else {
      var rest := bands[1..];
      assert Contiguous(rest) by {
        forall i | 0 <= i < |rest| - 1
          ensures rest[i].end == rest[i + 1].start
        {
          assert rest[i] == bands[i + 1] && rest[i + 1] == bands[i + 2];
        }
      }
      ContiguousCover(rest, f);
      if bands[0].start <= f <= bands[|bands| - 1].end {
        if f <= bands[0].end {
          assert InBand(bands[0], f);
        } else {
          assert rest[0].start <= f <= rest[|rest| - 1].end;
          var j :| 0 <= j < |rest| && InBand(rest[j], f);
          assert InBand(bands[j + 1], f);
        }
      }
      if exists i :: 0 <= i < |bands| && InBand(bands[i], f) {
        var i :| 0 <= i < |bands| && InBand(bands[i], f);
        EndsAscend(bands, i);
        StartsAscend(bands, 0, i);
      }
    }
  }

  /** In a contiguous table starts ascend along the table. */
  lemma {:induction false} StartsAscend(bands: seq<Band>, j: int, i: int)
    requires Contiguous(bands) && 0 <= j <= i < |bands|
    ensures bands[j].start <= bands[i].start
  {
    var k := j;
    while k < i
      invariant j <= k <= i
      invariant bands[j].start <= bands[k].start
    {
      k := k + 1;
    }
  }

  /** In a contiguous table no band ends after the last one. */
  lemma {:induction false} EndsAscend(bands: seq<Band>, i: int)
    requires Contiguous(bands) && 0 <= i < |bands|
    ensures bands[i].end <= bands[|bands| - 1].end
  {
    var k := i;
    while k < |bands| - 1
      invariant i <= k <= |bands| - 1
      invariant bands[i].end <= bands[k].end
    {
      k := k + 1;
    }
  }

  /** The table spans 100 MHz to 1000 MHz with no hole. */
  lemma TableCover(f: int)
    ensures (exists i :: 0 <= i < |Table| && InBand(Table[i], f))
        <==> 100_000_000 <= f <= 1000_000_000
  {
    TableContiguous();
    ContiguousCover(Table, f);
  }
}
