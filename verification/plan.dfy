/** Centre-frequency plans. frqscan8.py:90-99 walks each scanned band with
    `np.arange` and then sorts and deduplicates; analyze6.py:27-29 places
    `ceil(width / sr)` centres at half-step offsets across one range. */
module Plan {
  import opened Hz
  import opened Util
  import opened Bands
  import opened Config

  /** The integer-Hz model needs `sr / 2` to be whole. */
  predicate ValidRate(sr: int)
  {
    sr > 0 && sr % 2 == 0
  }

  /** The k-th capture centre of a walk that starts half a window above
      `start`. */
  function WindowCentre(start: int, sr: int, k: int): int
  {
    start + sr / 2 + k * sr
  }

  /** `np.arange(start, stop, step)` for a positive step: the values
      `start + i * step` for as long as they stay strictly below `stop`. */
  function Arange(start: int, stop: int, step: int): (r: seq<int>)
    requires step > 0
    ensures |r| == Max(0, CeilDiv(stop - start, step))
    ensures forall i :: 0 <= i < |r| ==> r[i] == start + i * step
    ensures forall i :: 0 <= i < |r| ==> r[i] < stop
    ensures stop <= start + |r| * step
    decreases stop - start
  {
    if start < stop then
      var rest := Arange(start + step, stop, step);
      CeilDivStep(stop - start, step);
      [start] + rest
    else
      CeilDivNonPositive(stop - start, step);
      []
  }

  lemma CeilDivStep(a: int, b: int)
    requires a > 0 && b > 0
    ensures CeilDiv(a, b) >= 1
    ensures CeilDiv(a - b, b) == CeilDiv(a, b) - 1
  {
    var r := CeilDiv(a, b);
    var s := CeilDiv(a - b, b);
    assert (r - 1) * b < a <= r * b;
    assert (s - 1) * b < a - b <= s * b;
    assert s * b < a <= (s + 1) * b;
    MulStrict(s, r, b);
    MulStrict(r - 1, s + 1, b);
  }

  /** Multiplying by a positive number preserves strict order, read
      backwards. */
  lemma MulStrict(x: int, y: int, c: int)
    requires c > 0 && x * c < y * c
    ensures x < y
  {
    if x >= y {
      MulMono(y, x, c);
    }
  }

  lemma CeilDivNonPositive(a: int, b: int)
    requires a <= 0 && b > 0
    ensures CeilDiv(a, b) <= 0
  {
    var r := CeilDiv(a, b);
    assert (r - 1) * b < 0 * b;
    MulStrict(r - 1, 0, b);
  }

  /** One band's walk, `np.arange(start + sr/2, end, sr)` (frqscan8.py:97). */
  function BandCentres(b: Band, sr: int): (r: seq<int>)
    requires ValidRate(sr)
    ensures forall i :: 0 <= i < |r| ==> r[i] == WindowCentre(b.start, sr, i) && r[i] < b.end
    ensures forall k: nat :: k >= |r| ==> WindowCentre(b.start, sr, k) >= b.end
  {
    var r := Arange(b.start + sr / 2, b.end, sr);
    forall k: nat | k >= |r|
      ensures WindowCentre(b.start, sr, k) >= b.end
    {
      MulMono(|r|, k, sr);
    }
    r
  }

  lemma MulMono(a: int, b: int, c: int)
    requires a <= b && c > 0
    ensures a * c <= b * c
  {
  }

  /** The walk of a band holds exactly the centres `start + sr/2 + k*sr`,
      k >= 0, that lie strictly below the band's end. */
  lemma BandCentreIff(b: Band, sr: int, c: int)
    requires ValidRate(sr)
    ensures c in BandCentres(b, sr)
        <==> exists k: nat :: c == WindowCentre(b.start, sr, k) && c < b.end
  {
    var r := BandCentres(b, sr);
    if exists k: nat :: c == WindowCentre(b.start, sr, k) && c < b.end {
      var k: nat :| c == WindowCentre(b.start, sr, k) && c < b.end;
      assert r[k] == c;
    }
    if c in r {
      var i :| 0 <= i < |r| && r[i] == c;
      assert c == WindowCentre(b.start, sr, i);
    }
  }

  /** `center_freqs.extend(...)` over the bands in order. */
  function ConcatCentres(bands: seq<Band>, sr: int): (r: seq<int>)
    requires ValidRate(sr)
    ensures forall c :: c in r <==> exists b :: b in bands && c in BandCentres(b, sr)
  {
    if bands == [] then []
    else
      var rest := ConcatCentres(bands[1..], sr);
      assert forall b :: b in bands <==> b == bands[0] || b in bands[1..];
      BandCentres(bands[0], sr) + rest
  }

  /** Every element is strictly smaller than every later one, so there are
      no duplicates. */
  predicate StrictlyAscending(s: seq<int>)
  {
    forall i, j :: 0 <= i < j < |s| ==> s[i] < s[j]
  }

  /** Adds x to a strictly ascending sequence unless it is already there. */
  function InsertUnique(s: seq<int>, x: int): (r: seq<int>)
    requires StrictlyAscending(s)
    ensures StrictlyAscending(r)
    ensures forall y :: y in r <==> y in s || y == x
  {
    if s == [] then [x]
    else if x < s[0] then [x] + s
    else if x == s[0] then s
    else
      var rest := InsertUnique(s[1..], x);
      assert forall y :: y in s <==> y == s[0] || y in s[1..];
      assert forall i :: 0 <= i < |rest| ==> s[0] < rest[i] by {
        forall i | 0 <= i < |rest|
          ensures s[0] < rest[i]
        {
          assert rest[i] in rest;
        }
      }
      [s[0]] + rest
  }

  /** `sorted(set(xs))`. */
  function SortedUnique(xs: seq<int>): (r: seq<int>)
    ensures StrictlyAscending(r)
    ensures forall x :: x in r <==> x in xs
  {
    if xs == [] then []
    else
      var init := xs[..|xs| - 1];
      assert forall x :: x in xs <==> x in init || x == xs[|xs| - 1] by {
        assert xs == init + [xs[|xs| - 1]];
      }
      InsertUnique(SortedUnique(init), xs[|xs| - 1])
  }

  /** `sorted(set(...))` is determined by its set: two strictly ascending
      sequences with the same elements are equal. */
  lemma {:induction false} AscendingUnique(a: seq<int>, b: seq<int>)
    requires StrictlyAscending(a) && StrictlyAscending(b)
    requires forall x :: x in a <==> x in b
    ensures a == b
  {
    if a != [] && b != [] {
      assert a[0] in b && b[0] in a;
      var i :| 0 <= i < |b| && b[i] == a[0];
      var j :| 0 <= j < |a| && a[j] == b[0];
      assert a[0] <= a[j] == b[0];
      assert b[0] <= b[i] == a[0];
      forall x
        ensures x in a[1..] <==> x in b[1..]
      {
        if x in a[1..] {
          var k :| 1 <= k < |a| && a[k] == x;
          assert a[0] < x;
        }
        if x in b[1..] {
          var k :| 1 <= k < |b| && b[k] == x;
          assert b[0] < x;
        }
        assert x in a <==> x == a[0] || x in a[1..];
        assert x in b <==> x == b[0] || x in b[1..];
      }
      AscendingUnique(a[1..], b[1..]);
      assert a == [a[0]] + a[1..] && b == [b[0]] + b[1..];
    } else if a == [] {
      assert forall x :: x !in b;
      EmptyWithoutMembers(b);
    } else {
      assert forall x :: x !in a;
      EmptyWithoutMembers(a);
    }
  }

  /** c is the centre of some window of some scanned band. */
  ghost predicate PlannedCentre(bands: seq<Band>, sr: int, c: int)
  {
    exists b, k: nat :: b in bands && IsScanned(b)
      && c == WindowCentre(b.start, sr, k) && c < b.end
  }

  /** frqscan8's plan (frqscan8.py:90-99). */
  function MultiBandPlan(bands: seq<Band>, sr: int): (r: seq<int>)
    requires ValidRate(sr)
    ensures StrictlyAscending(r)
    ensures forall c :: c in r <==> PlannedCentre(bands, sr, c)
  {
    var scanned := ScannedBands(bands);
    var r := SortedUnique(ConcatCentres(scanned, sr));
    forall c
      ensures c in r <==> PlannedCentre(bands, sr, c)
    {
      if c in r {
        var b :| b in scanned && c in BandCentres(b, sr);
        BandCentreIff(b, sr, c);
        var k: nat :| c == WindowCentre(b.start, sr, k) && c < b.end;
      }
      if PlannedCentre(bands, sr, c) {
        var b, k: nat :| b in bands && IsScanned(b)
          && c == WindowCentre(b.start, sr, k) && c < b.end;
        BandCentreIff(b, sr, c);
        assert b in scanned;
      }
    }
    r
  }

  /** Only scanned bands contribute: a table with no scanned band yields an
      empty plan. */
  lemma NoScannedBandNoPlan(bands: seq<Band>, sr: int)
    requires ValidRate(sr)
    requires forall b :: b in bands ==> !IsScanned(b)
    ensures MultiBandPlan(bands, sr) == []
  {
    var r := MultiBandPlan(bands, sr);
    forall c
      ensures c !in r
    {
      assert !PlannedCentre(bands, sr, c);
    }
    EmptyWithoutMembers(r);
  }

  /** A window of a scanned band that starts below the band's end is in
      the plan. */
  lemma CentreInPlan(bands: seq<Band>, sr: int, b: Band, k: nat)
    requires ValidRate(sr)
    requires b in bands && IsScanned(b) && WindowCentre(b.start, sr, k) < b.end
    ensures WindowCentre(b.start, sr, k) in MultiBandPlan(bands, sr)
  {
    assert PlannedCentre(bands, sr, WindowCentre(b.start, sr, k));
  }

  /** The windows of a band reach up to half a window below its end: every
      frequency in `[start, end - sr/2)` of a scanned band is within `sr/2`
      of some planned centre (the centre of the window holding f is always
      below the band's end). */
  lemma {:induction false} PlanCoversAllButTail(bands: seq<Band>, sr: int, b: Band, f: int)
    requires ValidRate(sr)
    requires b in bands && IsScanned(b)
    requires b.start <= f < b.end - sr / 2
    ensures exists c :: c in MultiBandPlan(bands, sr) && Abs(f - c) <= sr / 2
  {
    var k, m := DivMod(f - b.start, sr);
    var c := WindowCentre(b.start, sr, k);
    assert f - c == m - sr / 2;
    CentreInPlan(bands, sr, b, k);
  }

  /** analyze6's `num_steps = int(np.ceil(bandwidth / sample_rate))`: the
      fewest windows of width `sr` that together span `end - start`. */
  function NumSteps(start: int, end: int, sr: int): (r: int)
    requires sr > 0
    ensures r * sr >= end - start
    ensures (r - 1) * sr < end - start
  {
    CeilDiv(end - start, sr)
  }

  /** analyze6's plan, `[start + (i + 0.5) * sr for i in range(num_steps)]`
      (analyze6.py:27-29). The first centre is half a window above `start`,
      centres are one window apart, and there are just enough windows to
      reach `end`. */
  function SingleRangePlan(start: int, end: int, sr: int): (r: seq<int>)
    requires ValidRate(sr)
    ensures start >= end ==> r == []
    ensures start < end ==> (|r| - 1) * sr < end - start <= |r| * sr
    ensures r != [] ==> r[0] == start + sr / 2
    ensures forall i :: 0 <= i < |r| - 1 ==> r[i + 1] == r[i] + sr
  {
    var n := Max(0, NumSteps(start, end, sr));
    var r := seq(n, i => start + i * sr + sr / 2);
    if start >= end then
      CeilDivNonPositive(end - start, sr);
      r
    else
      assert forall i :: 0 <= i < |r| - 1 ==> r[i + 1] == r[i] + sr by {
        forall i | 0 <= i < |r| - 1
          ensures r[i + 1] == r[i] + sr
        {
          PrevMultiple(i + 1, sr);
        }
      }
      r
  }

  /** With analyze6's configuration, 450-470 MHz at 2.048 MHz takes ten
      windows, centred from 451.024 MHz to 469.456 MHz. */
  lemma ConfiguredRangePlan()
    ensures |SingleRangePlan(RangeStart, RangeEnd, SampleRate)| == 10
    ensures SingleRangePlan(RangeStart, RangeEnd, SampleRate)[0] == 451_024_000
    ensures SingleRangePlan(RangeStart, RangeEnd, SampleRate)[9] == 469_456_000
  {
    var r := SingleRangePlan(RangeStart, RangeEnd, SampleRate);
    var n := |r|;
    assert (n - 1) * 2_048_000 < 20_000_000 <= n * 2_048_000;
    assert n == 10 by {
      if n < 10 {
        MulMono(n, 9, 2_048_000);
      }
      if n > 10 {
        MulMono(10, n - 1, 2_048_000);
      }
    }
  }

  /** Every frequency of `[start, end]` is within `sr/2` of a centre: the
      plan covers the whole range, end included. */
  lemma {:induction false} SingleRangeCovers(start: int, end: int, sr: int, f: int)
    requires ValidRate(sr)
    requires start < end && start <= f <= end
    ensures exists i :: (0 <= i < |SingleRangePlan(start, end, sr)|
      && Abs(f - SingleRangePlan(start, end, sr)[i]) <= sr / 2)
  {
    var r := SingleRangePlan(start, end, sr);
    var n := |r|;
    var k, m := DivMod(f - start, sr);
    assert n * sr >= end - start;
    if k < n {
      assert r[k] == start + k * sr + sr / 2;
      assert Abs(f - r[k]) <= sr / 2;
    } else {
      // Only f == end on an exact multiple of sr lands here.
      MulMono(n, k, sr);
      assert f - start == n * sr && f == end;
      assert n >= 1 by {
        MulStrict(0, n, sr);
      }
      PrevMultiple(n, sr);
      assert r[n - 1] == start + (n - 1) * sr + sr / 2;
      assert Abs(f - r[n - 1]) <= sr / 2;
    }
  }

  /** Euclidean division by a positive divisor. */
  lemma DivMod(x: int, d: int) returns (q: int, m: int)
    requires d > 0
    ensures x == q * d + m && 0 <= m < d
    ensures x >= 0 ==> q >= 0
  {
    q, m := x / d, x % d;
    if x >= 0 && q < 0 {
      MulMono(q, -1, d);
    }
  }

  lemma PrevMultiple(n: int, d: int)
    ensures (n - 1) * d == n * d - d
  {
  }

  /** frqscan8's walk of a single band [start, end] is a prefix of
      analyze6's plan for the same range, and at most one window shorter:
      the walk stops when a centre reaches `end`, analyze6 when a window
      edge does. */
  lemma {:induction false} BandWalkIsPrefixOfRangePlan(start: int, end: int, sr: int, service: string)
    requires ValidRate(sr)
    ensures var walk := BandCentres(Band(start, end, 1, service), sr);
      var full := SingleRangePlan(start, end, sr);
      |walk| <= |full| <= |walk| + 1 && walk == full[..|walk|]
  {
    var walk := BandCentres(Band(start, end, 1, service), sr);
    var full := SingleRangePlan(start, end, sr);
    WalkLength(start, end, sr, service);
    if start < end {
      WalkAndStepCounts(|walk|, |full|, end - start, sr);
    }
    assert forall i :: 0 <= i < |walk| ==> walk[i] == full[i];
    assert walk == full[..|walk|];
  }

  /** A walk that stops once a centre reaches the end has at most as many
      windows as `ceil(width / sr)`, and at most one fewer. */
  lemma WalkAndStepCounts(w: int, n: int, width: int, sr: int)
    requires ValidRate(sr) && width > 0 && w >= 0
    requires w > 0 ==> (w - 1) * sr + sr / 2 < width
    requires width <= w * sr + sr / 2
    requires (n - 1) * sr < width <= n * sr
    ensures w <= n <= w + 1
  {
    if w > 0 {
      MulStrict(w - 1, n, sr);
    }
    PrevMultiple(w + 1, sr);
    MulStrict(n - 1, w + 1, sr);
  }

  /** The walk of one band ends at the first window centred at or past
      `end`: `sr/2 + (w-1)*sr < end - start <= sr/2 + w*sr`. */
  lemma WalkLength(start: int, end: int, sr: int, service: string)
    requires ValidRate(sr)
    ensures var w := |BandCentres(Band(start, end, 1, service), sr)|;
      (w > 0 ==> (w - 1) * sr + sr / 2 < end - start)
      && end - start <= w * sr + sr / 2
      && (start >= end ==> w == 0)
  {
    var walk := BandCentres(Band(start, end, 1, service), sr);
    var w := |walk|;
    if w > 0 {
      assert walk[w - 1] == WindowCentre(start, sr, w - 1) < end;
      assert walk[0] == start + sr / 2;
    }
    assert WindowCentre(start, sr, w) >= end;
  }

  /** frqscan8's 137-144 MHz "Military" band gets three windows, centred at
      138.024, 140.072 and 142.12 MHz. */
  lemma MilitaryBandCentres()
    ensures IsScanned(Table[2]) && InBand(Table[2], 143_500_000)
    ensures BandCentres(Table[2], SampleRate) == [138_024_000, 140_072_000, 142_120_000]
  {
    var r := BandCentres(Table[2], SampleRate);
    assert WindowCentre(Table[2].start, SampleRate, 3) >= Table[2].end;
    assert |r| == 3;
  }

  /** The 901-902 MHz "Paging" band is narrower than half a window, so
      although it is scanned it gets no window of its own. */
  lemma PagingBandHasNoCentre()
    ensures IsScanned(Table[17])
    ensures BandCentres(Table[17], SampleRate) == []
  {
    assert WindowCentre(Table[17].start, SampleRate, 0) >= Table[17].end;
  }

  /** frqscan8's plan does not cover every scanned band: 143.5 MHz lies in
      the scanned Military band, yet every planned centre c is more than half
      a window away from it. */
  lemma MultiBandPlanLeavesGap(bands: seq<Band>, sr: int, c: int)
    requires bands == Table && sr == SampleRate
    ensures c in MultiBandPlan(bands, sr) ==> Abs(c - 143_500_000) > sr / 2
  {
    if c in MultiBandPlan(bands, sr) {
      PlannedAwayFromGap(bands, sr, c);
    }
  }

  lemma PlannedAwayFromGap(bands: seq<Band>, sr: int, c: int)
    requires bands == Table && sr == SampleRate
    requires PlannedCentre(bands, sr, c)
    ensures Abs(c - 143_500_000) > sr / 2
  {
    var b, k: nat :| b in bands && IsScanned(b)
      && c == WindowCentre(b.start, sr, k) && c < b.end;
    WindowAwayFromGap(b, k);
  }

  /** No window of a scanned band of the table is centred within half a
      window of 143.5 MHz. */
  lemma WindowAwayFromGap(b: Band, k: nat)
    requires b in Table && IsScanned(b)
    requires WindowCentre(b.start, SampleRate, k) < b.end
    ensures Abs(WindowCentre(b.start, SampleRate, k) - 143_500_000) > SampleRate / 2
  {
    var i :| 0 <= i < |Table| && Table[i] == b;
    if i == 2 {
      assert k <= 2;
    } else {
      assert 3 <= i;
      TableContiguous();
      StartsAscend(Table, 3, i);
    }
  }

  /** On analyze6's range 450-470 MHz the two scripts plan the same ten
      windows. */
  lemma ConfiguredRangeWalkAgrees()
    ensures BandCentres(Table[11], SampleRate) == SingleRangePlan(RangeStart, RangeEnd, SampleRate)
  {
    ConfiguredRangePlan();
    BandWalkIsPrefixOfRangePlan(RangeStart, RangeEnd, SampleRate, "Land Mobile");
    assert WindowCentre(Table[11].start, SampleRate, 9) < Table[11].end;
  }

  /** On 137-144 MHz they differ: analyze6 would add a fourth window at
      144.168 MHz, which covers the tail the walk leaves open. */
  lemma MilitaryRangePlansDiffer()
    ensures |SingleRangePlan(137_000_000, 144_000_000, SampleRate)| == 4
    ensures |BandCentres(Table[2], SampleRate)| == 3
  {
    MilitaryBandCentres();
    var n := |SingleRangePlan(137_000_000, 144_000_000, SampleRate)|;
    assert (n - 1) * SampleRate < 7_000_000 <= n * SampleRate;
    if n < 4 {
      MulMono(n, 3, SampleRate);
    }
    if n > 4 {
      MulMono(4, n - 1, SampleRate);
    }
  }
}
